/** Jobs and definitions of internal/store/store.go held by pointer, with their lists as slices, and the deep
    copies that keep a store and its callers apart. */
module StoreRecords {
  import opened Findings
  import opened Records
  import opened Slices

  // ----- jobs -----

  /** One entry of a job's adapter list: its scalar fields and the header of its flags. */
  datatype AdapterHead = AdapterHead(plain: AdapterRun, safeFlags: Slice<string>) {
    function Read(): AdapterRun
      reads safeFlags.backing
    {
      plain.(safeFlags := safeFlags.View())
    }
  }

  ghost function FlagArrays(hs: seq<AdapterHead>): set<object> {
    set i | 0 <= i < |hs| :: hs[i].safeFlags.backing as object
  }

  function AdapterValues(hs: seq<AdapterHead>): (r: seq<AdapterRun>)
    reads FlagArrays(hs)
    ensures |r| == |hs| && forall i :: 0 <= i < |hs| ==> r[i] == hs[i].Read()
  {
    seq(|hs|, i requires 0 <= i < |hs| reads FlagArrays(hs) => hs[i].Read())
  }

  /** What `cp := *j` copies: scalar fields, held as a job whose own lists are not used, and slice headers. */
  datatype JobHead = JobHead(
    plain: Job, targets: Slice<TargetOutcome>, adapters: Slice<AdapterHead>,
    authzTargets: Slice<string>, authzScope: Slice<string>)
  {
    ghost function Arrays(): set<object> {
      {targets.backing as object, adapters.backing, authzTargets.backing, authzScope.backing}
    }

    ghost function Flags(): set<object>
      reads adapters.backing
    {
      FlagArrays(adapters.View())
    }

    function Read(): Job
      reads Arrays(), Flags()
    {
      plain.(targets := targets.View(), adapters := AdapterValues(adapters.View()),
             authz := plain.authz.(targets := authzTargets.View(), scope := authzScope.View()))
    }
  }

  method NewHead(j: Job) returns (h: JobHead)
    ensures h.Read() == j && fresh(h.Arrays()) && fresh(h.Flags())
  {
    hide AdapterValues, FlagArrays;
    var targets := Full(j.targets);
    var adapters := NewAdapters(j.adapters);
    var authzTargets := Full(j.authz.targets);
    var authzScope := Full(j.authz.scope);
    h := JobHead(j, targets, adapters, authzTargets, authzScope);
  }

  class JobRecord {
    var head: JobHead

    /** Everything reachable from the record. */
    ghost function Repr(): (r: set<object>)
      reads this, head.adapters.backing
      ensures this in r && head.adapters.backing in r
    {
      {this as object} + head.Arrays() + head.Flags()
    }

    function Value(): Job
      reads Repr()
    {
      head.Read()
    }

    /** A job of its own, as a handler or the decoder makes it. */
    constructor (j: Job)
      ensures Value() == j && fresh(Repr())
    {
      var h := NewHead(j);
      head := h;
    }

    /** `cp := *j`: the copy shares every array. */
    constructor Shallow(h: JobHead)
      ensures head == h
    {
      head := h;
    }

    /** A deep copy, the flags of every adapter included. */
    method Clone() returns (c: JobRecord)
      ensures fresh(c) && fresh(c.Repr()) && c.Value() == old(Value()) == Value()
    {
      c := new JobRecord.Shallow(head);
      var h := CopyLists(head);
      c.head := h;
    }
  }

  method CopyLists(h: JobHead) returns (c: JobHead)
    ensures c.Read() == h.Read() && fresh(c.Arrays()) && fresh(c.Flags())
  {
    hide AdapterValues, FlagArrays;
    var targets := CopyOf(h.targets);
    var adapters := CloneAdapters(h.adapters);
    var authzTargets := CopyOf(h.authzTargets);
    var authzScope := CopyOf(h.authzScope);
    c := h.(targets := targets, adapters := adapters, authzTargets := authzTargets, authzScope := authzScope);
    assert fresh(c.Flags()) && fresh(c.Arrays());
  }

  /** `make([]AdapterRun, n)` filled with copies of the entries, each over flags of its own. */
  method CloneAdapters(s: Slice<AdapterHead>) returns (r: Slice<AdapterHead>)
    ensures fresh(r.backing) && fresh(FlagArrays(r.View()))
    ensures AdapterValues(r.View()) == AdapterValues(s.View())
  {
    ghost var was := s.View();
    var copies: seq<AdapterHead> := [];
    for i := 0 to s.Len()
      invariant |copies| == i
      invariant forall k :: 0 <= k < i ==> fresh(copies[k].safeFlags.backing) && copies[k].Read() == was[k].Read()
      invariant s.View() == was
    {
      var a := s.backing[i];
      assert a == was[i];
      var flags := CopyOf(a.safeFlags);
      copies := copies + [a.(safeFlags := flags)];
    }
    r := Full(copies);
  }

  method NewAdapters(runs: seq<AdapterRun>) returns (r: Slice<AdapterHead>)
    ensures fresh(r.backing) && fresh(FlagArrays(r.View()))
    ensures AdapterValues(r.View()) == runs
  {
    var heads: seq<AdapterHead> := [];
    for i := 0 to |runs|
      invariant |heads| == i
      invariant forall k :: 0 <= k < i ==> fresh(heads[k].safeFlags.backing) && heads[k].Read() == runs[k]
    {
      var flags := Full(runs[i].safeFlags);
      heads := heads + [AdapterHead(runs[i], flags)];
    }
    r := Full(heads);
  }

  // ----- definitions -----

  datatype DefinitionHead = DefinitionHead(plain: Definition, targets: Slice<string>, scope: Slice<string>) {
    ghost function Arrays(): set<object> {
      {targets.backing as object, scope.backing}
    }

    function Read(): Definition
      reads Arrays()
    {
      plain.(targets := targets.View(), scope := scope.View())
    }
  }

  class DefinitionRecord {
    var head: DefinitionHead

    ghost function Repr(): (r: set<object>)
      reads this
      ensures this in r
    {
      {this as object} + head.Arrays()
    }

    function Value(): Definition
      reads Repr()
    {
      head.Read()
    }

    constructor (d: Definition)
      ensures Value() == d && fresh(Repr())
    {
      var targets := Full(d.targets);
      var scope := Full(d.scope);
      head := DefinitionHead(d, targets, scope);
    }

    /** `cp := *d`: the copy shares both arrays. */
    constructor Shallow(h: DefinitionHead)
      ensures head == h
    {
      head := h;
    }

    method Clone() returns (c: DefinitionRecord)
      ensures fresh(c) && fresh(c.Repr()) && c.Value() == old(Value()) == Value()
    {
      var targets := CopyOf(head.targets);
      var scope := CopyOf(head.scope);
      c := new DefinitionRecord.Shallow(head);
      c.head := c.head.(targets := targets, scope := scope);
    }
  }
}
