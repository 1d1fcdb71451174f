/** Isolation over whole sessions: callers keep every record they passed in or were handed, overwrite them and the
    arrays behind them as they please, pass them in again, and the reference store still answers as the pure state
    machine does. */
module MemSession {
  import opened Text
  import opened Ordering
  import opened Findings
  import opened Records
  import opened Slices
  import opened FindingRecords
  import opened StoreRecords
  import opened Correlate
  import opened MergingStore
  import opened Store
  import opened MemStore

  function PureRun(s: MemState, ops: seq<Op>): (MemState, seq<Answer>) {
    if ops == [] then (s, [])
    else
      var before := PureRun(s, ops[..|ops| - 1]);
      var r := MemStep(before.0, ops[|ops| - 1]);
      (r.0, before.1 + [r.1])
  }

  lemma PureRunSnoc(s: MemState, ops: seq<Op>, op: Op)
    ensures PureRun(s, ops + [op]) == var before := PureRun(s, ops); var r := MemStep(before.0, op); (r.0, before.1 + [r.1])
  {
    hide MemStep;
    assert (ops + [op])[..|ops|] == ops;
  }

  /** The records in the hands of callers. */
  datatype Pool = Pool(jobs: seq<JobRecord>, defs: seq<DefinitionRecord>, fs: seq<FindingRecord>)

  /** Whatever callers can reach from their records lies in `held`. */
  ghost predicate Closed(p: Pool, held: set<object>)
    reads held
  {
    && (forall j :: j in p.jobs ==> j in held && j.head.adapters.backing in held && j.Repr() <= held)
    && (forall d :: d in p.defs ==> d in held && d.Repr() <= held)
    && (forall f :: f in p.fs ==> f in held && f.Repr() <= held)
  }

  /** What these records show. */
  datatype Hand = Hand(jobs: seq<Job>, defs: seq<Definition>, fs: seq<Finding>)

  ghost function JobsShown(p: Pool, held: set<object>): (r: seq<Job>)
    requires Closed(p, held)
    reads held
    ensures |r| == |p.jobs| && forall k :: 0 <= k < |p.jobs| ==> r[k] == p.jobs[k].Value()
  {
    seq(|p.jobs|, k requires 0 <= k < |p.jobs| && Closed(p, held) reads held => p.jobs[k].Value())
  }

  ghost function DefinitionsShown(p: Pool, held: set<object>): (r: seq<Definition>)
    requires Closed(p, held)
    reads held
    ensures |r| == |p.defs| && forall k :: 0 <= k < |p.defs| ==> r[k] == p.defs[k].Value()
  {
    seq(|p.defs|, k requires 0 <= k < |p.defs| && Closed(p, held) reads held => p.defs[k].Value())
  }

  ghost function FindingsShown(p: Pool, held: set<object>): (r: seq<Finding>)
    requires Closed(p, held)
    reads held
    ensures |r| == |p.fs| && forall k :: 0 <= k < |p.fs| ==> r[k] == p.fs[k].Value()
  {
    seq(|p.fs|, k requires 0 <= k < |p.fs| && Closed(p, held) reads held => p.fs[k].Value())
  }

  ghost function HandOf(p: Pool, held: set<object>): Hand
    requires Closed(p, held)
    reads held
  {
    Hand(JobsShown(p, held), DefinitionsShown(p, held), FindingsShown(p, held))
  }

  /** What a caller asks for. It first makes a record of the value given, and then picks from all it holds; past the
      end that is the new one. */
  datatype Request =
    | CreateJob(pick: nat, j: Job)
    | UpdateJob(pick: nat, j: Job)
    | AddFindings(id: string, picks: seq<nat>, f: Finding)
    | CreateDefinition(pick: nat, d: Definition)
    | UpdateDefinition(pick: nat, d: Definition)
    | Plain(op: Op)

  predicate Reads(op: Op) {
    op.GetJob? || op.ListJobs? || op.GetFindings? || op.ActiveJobs? || op.GetDefinition? || op.ListDefinitions?
    || op.LastCompletedJob?
  }

  function At(pick: nat, n: nat): nat
    requires n > 0
  {
    if pick < n then pick else n - 1
  }

  function Plus(h: Hand, g: Hand): Hand { Hand(h.jobs + g.jobs, h.defs + g.defs, h.fs + g.fs) }

  const NO_HAND := Hand([], [], [])

  /** The record a caller makes for a request. */
  function Made(r: Request): Hand {
    match r
    case CreateJob(_, j) => NO_HAND.(jobs := [j])
    case UpdateJob(_, j) => NO_HAND.(jobs := [j])
    case AddFindings(_, _, f) => NO_HAND.(fs := [f])
    case CreateDefinition(_, d) => NO_HAND.(defs := [d])
    case UpdateDefinition(_, d) => NO_HAND.(defs := [d])
    case Plain(_) => NO_HAND
  }

  function Chosen(fs: seq<Finding>, picks: seq<nat>): (r: seq<Finding>)
    requires fs != []
  {
    MapSeq(k => fs[At(k, |fs|)], picks)
  }

  /** The operation a request comes to, from what the records of the callers show at that moment. */
  function Wanted(r: Request, h: Hand): Op {
    var s := Plus(h, Made(r));
    match r
    case CreateJob(k, _) => Op.CreateJob(s.jobs[At(k, |s.jobs|)])
    case UpdateJob(k, _) => Op.UpdateJob(s.jobs[At(k, |s.jobs|)])
    case AddFindings(id, picks, _) => Op.AddFindings(id, Chosen(s.fs, picks))
    case CreateDefinition(k, _) => Op.CreateDefinition(s.defs[At(k, |s.defs|)])
    case UpdateDefinition(k, _) => Op.UpdateDefinition(s.defs[At(k, |s.defs|)])
    case Plain(o) => if Reads(o) || o.DeleteDefinition? then o else ActiveJobs
  }

  /** What an answer hands out. */
  function HandedOut(a: Answer): Hand {
    match a
    case OneJob(j) => NO_HAND.(jobs := [j])
    case ManyJobs(js) => NO_HAND.(jobs := js)
    case SomeFindings(fs) => NO_HAND.(fs := fs)
    case OneDefinition(d) => NO_HAND.(defs := [d])
    case ManyDefinitions(ds) => NO_HAND.(defs := ds)
    case _ => NO_HAND
  }

  /** What callers hold after a request: what they held, unchanged, what they made for it, and what they were handed. */
  function After(r: Request, h: Hand, a: Answer): Hand { Plus(Plus(h, Made(r)), HandedOut(a)) }

  // ----- records that join the pool -----

  ghost predicate Beside(m: Mem, held: set<object>)
    reads m`jobObjects, m`definitionObjects, m`findingObjects
  {
    m !in held && held !! m.Owned()
  }

  /** Everything reachable from some records. */
  ghost function Reach(p: Pool): set<object>
    reads p.jobs, set j | j in p.jobs :: j.head.adapters.backing
    reads p.defs, p.fs
  {
    (set j, o | j in p.jobs && o in j.Repr() :: o) + (set d, o | d in p.defs && o in d.Repr() :: o)
    + set f, o | f in p.fs && o in f.Repr() :: o
  }

  function Join(p: Pool, q: Pool): Pool { Pool(p.jobs + q.jobs, p.defs + q.defs, p.fs + q.fs) }

  const NOTHING := Pool([], [], [])

  lemma ReachCloses(q: Pool)
    ensures Closed(q, Reach(q))
  {
    hide FindingRecord.Repr, DefinitionRecord.Repr, JobRecord.Repr;
    forall j | j in q.jobs ensures j in Reach(q) && j.head.adapters.backing in Reach(q) && j.Repr() <= Reach(q) {
      assert j in j.Repr() && j.head.adapters.backing in j.Repr();
    }
    forall d | d in q.defs ensures d in Reach(q) && d.Repr() <= Reach(q) { assert d in d.Repr(); }
    forall f | f in q.fs ensures f in Reach(q) && f.Repr() <= Reach(q) { assert f in f.Repr(); }
  }

  lemma Joined(p: Pool, held: set<object>, q: Pool, others: set<object>)
    requires Closed(p, held) && Closed(q, others)
    ensures Closed(Join(p, q), held + others)
    ensures HandOf(Join(p, q), held + others) == Plus(HandOf(p, held), HandOf(q, others))
  {
    JoinedCloses(p, held, q, others);
    hide Closed, JobsShown, DefinitionsShown, FindingsShown;
    JobsJoin(p, held, q, others, Join(p, q), held + others);
    DefinitionsJoin(p, held, q, others, Join(p, q), held + others);
    FindingsJoin(p, held, q, others, Join(p, q), held + others);
  }

  lemma JobsJoin(p: Pool, held: set<object>, q: Pool, others: set<object>, b: Pool, all: set<object>)
    requires Closed(p, held) && Closed(q, others) && Closed(b, all) && b.jobs == p.jobs + q.jobs
    ensures JobsShown(b, all) == JobsShown(p, held) + JobsShown(q, others)
  {
    hide Closed, JobsShown, JobRecord.Value;
  }

  lemma DefinitionsJoin(p: Pool, held: set<object>, q: Pool, others: set<object>, b: Pool, all: set<object>)
    requires Closed(p, held) && Closed(q, others) && Closed(b, all) && b.defs == p.defs + q.defs
    ensures DefinitionsShown(b, all) == DefinitionsShown(p, held) + DefinitionsShown(q, others)
  {
    hide Closed, DefinitionsShown, DefinitionRecord.Value;
  }

  lemma FindingsJoin(p: Pool, held: set<object>, q: Pool, others: set<object>, b: Pool, all: set<object>)
    requires Closed(p, held) && Closed(q, others) && Closed(b, all) && b.fs == p.fs + q.fs
    ensures FindingsShown(b, all) == FindingsShown(p, held) + FindingsShown(q, others)
  {
    hide Closed, FindingsShown, FindingRecord.Value;
  }

  lemma JoinedCloses(p: Pool, held: set<object>, q: Pool, others: set<object>)
    requires Closed(p, held) && Closed(q, others)
    ensures Closed(Join(p, q), held + others)
  {
    hide FindingRecord.Repr, DefinitionRecord.Repr, JobRecord.Repr;
  }

  /** The caller makes a record for its request. */
  method Make(r: Request, p: Pool, ghost held: set<object>) returns (p': Pool, ghost held': set<object>)
    requires Closed(p, held)
    ensures Closed(p', held') && held <= held' && fresh(held' - held)
    ensures HandOf(p', held') == Plus(old(HandOf(p, held)), Made(r))
  {
    hide Closed, HandOf, Reach;
    var q := MakeRecord(r);
    ReachCloses(q);
    Joined(p, held, q, Reach(q));
    p', held' := Join(p, q), held + Reach(q);
  }

  method MakeRecord(r: Request) returns (q: Pool)
    ensures fresh(Reach(q)) && Closed(q, Reach(q)) && HandOf(q, Reach(q)) == Made(r)
  {
    hide Closed, HandOf, Reach;
    match r {
      case CreateJob(_, v) => q := NewJob(v);
      case UpdateJob(_, v) => q := NewJob(v);
      case AddFindings(_, _, v) => q := NewFinding(v);
      case CreateDefinition(_, v) => q := NewDefinition(v);
      case UpdateDefinition(_, v) => q := NewDefinition(v);
      case Plain(_) =>
        q := NOTHING;
        ReachCloses(q);
        NothingHeld();
    }
  }

  method NewJob(v: Job) returns (q: Pool)
    ensures fresh(Reach(q)) && Closed(q, Reach(q)) && HandOf(q, Reach(q)) == NO_HAND.(jobs := [v])
  {
    hide JobRecord.Repr, JobRecord.Value, Closed;
    var j := new JobRecord(v);
    q := NOTHING.(jobs := [j]);
    ReachCloses(q);
    assert HandOf(q, Reach(q)) == NO_HAND.(jobs := [v]);
  }

  method NewDefinition(v: Definition) returns (q: Pool)
    ensures fresh(Reach(q)) && Closed(q, Reach(q)) && HandOf(q, Reach(q)) == NO_HAND.(defs := [v])
  {
    hide DefinitionRecord.Repr, DefinitionRecord.Value, Closed;
    var d := new DefinitionRecord(v);
    q := NOTHING.(defs := [d]);
    ReachCloses(q);
    assert HandOf(q, Reach(q)) == NO_HAND.(defs := [v]);
  }

  method NewFinding(v: Finding) returns (q: Pool)
    ensures fresh(Reach(q)) && Closed(q, Reach(q)) && HandOf(q, Reach(q)) == NO_HAND.(fs := [v])
  {
    hide FindingRecord.Repr, FindingRecord.Value, Closed;
    var f := new FindingRecord(v);
    q := NOTHING.(fs := [f]);
    ReachCloses(q);
    assert HandOf(q, Reach(q)) == NO_HAND.(fs := [v]);
  }

  lemma NothingHeld()
    ensures Closed(NOTHING, Reach(NOTHING)) && Reach(NOTHING) == {} && HandOf(NOTHING, Reach(NOTHING)) == NO_HAND
  {
    ReachCloses(NOTHING);
    hide Closed;
  }

  // ----- calls -----

  /** A pool of new records that show what an answer hands out. */
  ghost predicate Shown(q: Pool, a: Answer)
    reads Reach(q), q.jobs, set j | j in q.jobs :: j.head.adapters.backing
    reads q.defs, q.fs
  {
    && |q.jobs| == |HandedOut(a).jobs| && (forall k :: 0 <= k < |q.jobs| ==> q.jobs[k].Value() == HandedOut(a).jobs[k])
    && |q.defs| == |HandedOut(a).defs| && (forall k :: 0 <= k < |q.defs| ==> q.defs[k].Value() == HandedOut(a).defs[k])
    && |q.fs| == |HandedOut(a).fs| && (forall k :: 0 <= k < |q.fs| ==> q.fs[k].Value() == HandedOut(a).fs[k])
  }

  lemma ShownHand(q: Pool, a: Answer)
    requires Shown(q, a)
    ensures Closed(q, Reach(q)) && HandOf(q, Reach(q)) == HandedOut(a)
  {
    ReachCloses(q);
    hide Closed, FindingRecord.Value, DefinitionRecord.Value, JobRecord.Value, HandedOut;
    assert JobsShown(q, Reach(q)) == HandedOut(a).jobs;
    assert DefinitionsShown(q, Reach(q)) == HandedOut(a).defs;
    assert FindingsShown(q, Reach(q)) == HandedOut(a).fs;
  }

  method HandedJobs(m: Mem, op: Op) returns (a: Answer, q: Pool)
    requires m.Valid() && (op.GetJob? || op.ListJobs? || op.LastCompletedJob?)
    ensures m.Valid() && m.State() == old(m.State()) && (m.State(), a) == MemStep(m.State(), op)
    ensures fresh(Reach(q)) && Shown(q, a)
  {
    hide MemStep, JobRecord.Repr, JobRecord.Value, Mem.Valid, Mem.State;
    q := NOTHING;
    match op {
      case GetJob(id) =>
        var j;
        j, a := m.GetJob(id);
        q := if j == null then NOTHING else NOTHING.(jobs := [j]);
      case ListJobs(w) =>
        var js;
        js, a := m.ListJobs(w);
        q := NOTHING.(jobs := js);
      case LastCompletedJob(d, x) =>
        var j;
        j, a := m.LastCompletedJob(d, x);
        q := if j == null then NOTHING else NOTHING.(jobs := [j]);
    }
  }

  method HandedDefinitions(m: Mem, op: Op) returns (a: Answer, q: Pool)
    requires m.Valid() && (op.GetDefinition? || op.ListDefinitions?)
    ensures m.Valid() && m.State() == old(m.State()) && (m.State(), a) == MemStep(m.State(), op)
    ensures fresh(Reach(q)) && Shown(q, a)
  {
    hide MemStep, DefinitionRecord.Repr, DefinitionRecord.Value, Mem.Valid, Mem.State;
    q := NOTHING;
    match op {
      case GetDefinition(id) =>
        var d;
        d, a := m.GetDefinition(id);
        q := if d == null then NOTHING else NOTHING.(defs := [d]);
      case ListDefinitions(w) =>
        var ds;
        ds, a := m.ListDefinitions(w);
        q := NOTHING.(defs := ds);
    }
  }

  method HandedFindings(m: Mem, id: string) returns (a: Answer, q: Pool)
    requires m.Valid()
    ensures m.Valid() && m.State() == old(m.State()) && (m.State(), a) == MemStep(m.State(), Op.GetFindings(id))
    ensures fresh(Reach(q)) && Shown(q, a)
  {
    hide MemStep, FindingRecord.Repr, FindingRecord.Value, Mem.Valid, Mem.State;
    var fs;
    fs, a := m.GetFindings(id);
    q := NOTHING.(fs := fs);
  }

  /** What a query hands out, as a pool of new records. */
  method Handed(m: Mem, op: Op) returns (a: Answer, q: Pool)
    requires m.Valid() && Reads(op)
    ensures m.Valid() && m.State() == old(m.State()) && (m.State(), a) == MemStep(m.State(), op)
    ensures fresh(Reach(q)) && Closed(q, Reach(q)) && HandOf(q, Reach(q)) == HandedOut(a)
  {
    hide MemStep, Mem.Valid, Mem.State, Closed, HandOf, Shown, HandedOut;
    match op {
      case GetFindings(id) => a, q := HandedFindings(m, id);
      case GetDefinition(_) => a, q := HandedDefinitions(m, op);
      case ListDefinitions(_) => a, q := HandedDefinitions(m, op);
      case ActiveJobs =>
        a := m.ActiveJobs();
        q := NOTHING;
        CountHandsOut(m.State());
        NothingShown(a);
      case _ => a, q := HandedJobs(m, op);
    }
    ShownHand(q, a);
  }

  lemma NothingShown(a: Answer)
    requires HandedOut(a) == NO_HAND
    ensures Shown(NOTHING, a) && Reach(NOTHING) == {}
  {
  }

  /** A query: the store is as it was, and what it hands out is new. */
  method Query(m: Mem, op: Op, p: Pool, ghost held: set<object>) returns (a: Answer, p': Pool, ghost held': set<object>)
    requires m.Valid() && Reads(op) && Closed(p, held) && Beside(m, held)
    ensures m.Valid() && m.Owned() == old(m.Owned())
    ensures (m.State(), a) == MemStep(old(m.State()), op)
    ensures Closed(p', held') && Beside(m, held') && held <= held' && fresh(held' - held)
    ensures HandOf(p', held') == Plus(old(HandOf(p, held)), HandedOut(a))
  {
    hide MemStep, FindingRecord.Repr, DefinitionRecord.Repr, JobRecord.Repr, Mem.Valid, Mem.State, Reach, HandOf, Closed;
    var q;
    a, q := Handed(m, op);
    Joined(p, held, q, Reach(q));
    p', held' := Join(p, q), held + Reach(q);
  }

  /** The records a request picks. */
  datatype Picked = Picked(job: JobRecord?, def: DefinitionRecord?, fs: seq<FindingRecord>)

  /** They are the callers', and show the values of the operation. */
  ghost predicate Carries(p: Pool, held: set<object>, r: Request, k: Picked, op: Op)
    requires Closed(p, held)
    reads held
  {
    match r
    case CreateJob(_, _) => k.job != null && k.job in p.jobs && op == Op.CreateJob(k.job.Value())
    case UpdateJob(_, _) => k.job != null && k.job in p.jobs && op == Op.UpdateJob(k.job.Value())
    case CreateDefinition(_, _) => k.def != null && k.def in p.defs && op == Op.CreateDefinition(k.def.Value())
    case UpdateDefinition(_, _) => k.def != null && k.def in p.defs && op == Op.UpdateDefinition(k.def.Value())
    case AddFindings(id, _, _) =>
      && (forall i :: 0 <= i < |k.fs| ==> k.fs[i] in p.fs) && op.AddFindings? && op.id == id && |op.fs| == |k.fs|
      && forall i :: 0 <= i < |k.fs| ==> op.fs[i] == k.fs[i].Value()
    case Plain(_) => false
  }

  /** The same record may be picked more than once, and records may share arrays. */
  method Pick(r: Request, p: Pool, ghost held: set<object>, ghost h: Hand) returns (k: Picked)
    requires Closed(p, held) && HandOf(p, held) == Plus(h, Made(r)) && !r.Plain?
    ensures Carries(p, held, r, k, Wanted(r, h))
  {
    hide FindingRecord.Value, DefinitionRecord.Value, JobRecord.Value;
    hide FindingRecord.Repr, DefinitionRecord.Repr, JobRecord.Repr;
    match r {
      case CreateJob(i, _) => k := Picked(p.jobs[At(i, |p.jobs|)], null, []);
      case UpdateJob(i, _) => k := Picked(p.jobs[At(i, |p.jobs|)], null, []);
      case CreateDefinition(i, _) => k := Picked(null, p.defs[At(i, |p.defs|)], []);
      case UpdateDefinition(i, _) => k := Picked(null, p.defs[At(i, |p.defs|)], []);
      case AddFindings(_, picks, _) =>
        k := Picked(null, null, seq(|picks|, i requires 0 <= i < |picks| => p.fs[At(picks[i], |p.fs|)]));
    }
  }

  /** An update, made with records of the caller's own. */
  method Put(m: Mem, r: Request, k: Picked, ghost op: Op, p: Pool, ghost held: set<object>) returns (a: Answer)
    requires m.Valid() && Closed(p, held) && Beside(m, held) && Carries(p, held, r, k, op)
    modifies m, m.findingObjects
    ensures m.Valid() && fresh(m.Owned() - old(m.Owned()))
    ensures (m.State(), a) == MemStep(old(m.State()), op) && HandedOut(a) == NO_HAND
    ensures Closed(p, held) && Beside(m, held) && HandOf(p, held) == old(HandOf(p, held))
  {
    hide Closed, Mem.Valid, Mem.State, HandOf, Values, Beyond, FoldIn;
    hide FindingRecord.Value, DefinitionRecord.Value, JobRecord.Value;
    assert m.findingObjects <= m.Owned();
    match r {
      case CreateJob(_, _) => a := m.CreateJob(k.job);
      case UpdateJob(_, _) => a := m.UpdateJob(k.job);
      case CreateDefinition(_, _) => a := m.CreateDefinition(k.def);
      case UpdateDefinition(_, _) => a := m.UpdateDefinition(k.def);
      case AddFindings(id, _, _) =>
        PickedBeyond(p, held, k.fs, m.Owned());
        assert m.Region(id) <= m.findingObjects by { m.ValidMeans(); m.RegionInside(id); }
        CarriedValues(k.fs, op.fs);
        a := m.AddFindings(id, k.fs);
    }
  }

  lemma CarriedValues(fs: seq<FindingRecord>, vs: seq<Finding>)
    requires |fs| == |vs| && forall i :: 0 <= i < |fs| ==> vs[i] == fs[i].Value()
    ensures Values(fs) == vs
  {
    hide FindingRecord.Value;
  }

  lemma PickedBeyond(p: Pool, held: set<object>, fs: seq<FindingRecord>, owned: set<object>)
    requires Closed(p, held) && held !! owned && forall f :: f in fs ==> f in p.fs
    ensures Beyond(fs, owned)
  {
    hide FindingRecord.Repr, DefinitionRecord.Repr, JobRecord.Repr;
    forall k | 0 <= k < |fs| ensures fs[k].Repr() !! owned { assert fs[k] in p.fs; }
  }

  /** One request; the store and the pool never meet, and no record of the callers changes. */
  method Call(m: Mem, r: Request, p: Pool, ghost held: set<object>)
    returns (a: Answer, p': Pool, ghost held': set<object>)
    requires m.Valid() && Closed(p, held) && Beside(m, held)
    modifies m, m.findingObjects
    ensures m.Valid() && fresh(m.Owned() - old(m.Owned()))
    ensures (m.State(), a) == MemStep(old(m.State()), Wanted(r, old(HandOf(p, held))))
    ensures Closed(p', held') && Beside(m, held') && held <= held' && fresh(held' - held)
    ensures HandOf(p', held') == After(r, old(HandOf(p, held)), a)
  {
    hide MemStep, Closed, Mem.Valid, Mem.State, HandOf, Carries;
    ghost var h := HandOf(p, held);
    if r.Plain? {
      PlusNothing(h);
      if r.op.DeleteDefinition? {
        a := m.DeleteDefinition(r.op.id);
        p', held' := p, held;
        DeleteHandsOut(old(m.State()), r.op);
      } else if Reads(r.op) {
        a, p', held' := Query(m, r.op, p, held);
      } else {
        a, p', held' := Query(m, ActiveJobs, p, held);
      }
    } else {
      p', held' := Make(r, p, held);
      m.Untouched();
      var k := Pick(r, p', held', h);
      a := Put(m, r, k, Wanted(r, h), p', held');
      PlusNothing(Plus(h, Made(r)));
    }
  }

  lemma PlusNothing(h: Hand)
    ensures Plus(h, NO_HAND) == h
  {
  }

  lemma CountHandsOut(s: MemState)
    ensures HandedOut(MemStep(s, ActiveJobs).1) == NO_HAND
  {
  }

  lemma DeleteHandsOut(s: MemState, op: Op)
    requires op.DeleteDefinition?
    ensures HandedOut(MemStep(s, op).1) == NO_HAND
  {
  }

  // ----- what callers do between requests -----

  /** Anything a caller can do with what it holds: write any field of its records and any element of the arrays
      behind them, point records at each other's arrays, and make new ones. The rest of the proof uses the
      contract alone, so it covers every such program and not only the one below. */
  method Tamper(p: Pool, ghost held: set<object>) returns (p': Pool, ghost held': set<object>)
    requires Closed(p, held)
    modifies held
    ensures Closed(p', held') && held <= held' && fresh(held' - held)
  {
    hide Closed;
    p', held' := p, held;
    for i := 0 to |p.fs|
      invariant Closed(p, held)
    {
      var k :| 0 <= k < |p.fs|;
      ScribbleFinding(p, i, k, held);
    }
    for i := 0 to |p.defs|
      invariant Closed(p, held)
    {
      var k :| 0 <= k < |p.defs|;
      ScribbleDefinition(p, i, k, held);
    }
    for i := 0 to |p.jobs|
      invariant Closed(p, held)
    {
      var k :| 0 <= k < |p.jobs|;
      ScribbleJob(p, i, k, held);
    }
  }

  method ScribbleFinding(p: Pool, i: nat, k: nat, ghost held: set<object>)
    requires Closed(p, held) && i < |p.fs| && k < |p.fs|
    modifies held
    ensures Closed(p, held)
  {
    hide FindingRecord.Value, JobRecord.Value, DefinitionRecord.Value;
    assert p.fs[i] in p.fs && p.fs[k] in p.fs;
    p.fs[i].head := p.fs[k].head;
    ScribbleList(p, p.fs[i].head.tools.backing, held);
    ScribbleList(p, p.fs[i].head.cve.backing, held);
  }

  method ScribbleList(p: Pool, a: array<string>, ghost held: set<object>)
    requires Closed(p, held) && a in held
    modifies held
    ensures Closed(p, held)
  {
    hide FindingRecord.Value, JobRecord.Value, DefinitionRecord.Value;
    modify a;
  }

  method ScribbleDefinition(p: Pool, i: nat, k: nat, ghost held: set<object>)
    requires Closed(p, held) && i < |p.defs| && k < |p.defs|
    modifies held
    ensures Closed(p, held)
  {
    hide FindingRecord.Value, JobRecord.Value, DefinitionRecord.Value;
    assert p.defs[i] in p.defs && p.defs[k] in p.defs;
    p.defs[i].head := p.defs[k].head;
    ScribbleList(p, p.defs[i].head.targets.backing, held);
  }

  method ScribbleJob(p: Pool, i: nat, k: nat, ghost held: set<object>)
    requires Closed(p, held) && i < |p.jobs| && k < |p.jobs|
    modifies held
    ensures Closed(p, held)
  {
    hide FindingRecord.Value, JobRecord.Value, DefinitionRecord.Value;
    assert p.jobs[i] in p.jobs && p.jobs[k] in p.jobs;
    p.jobs[i].head := p.jobs[k].head;
    ScribbleList(p, p.jobs[i].head.authzTargets.backing, held);
  }

  /** A whole session. Before every request callers tamper with everything they hold, what they were handed and
      what they passed in alike. `before` and `after` are what their records show just before and just after each
      request: the operations carry the values of the records picked, a request changes no record of the callers,
      and what it hands out shows the answer; the answers and the final state are those of the pure machine. */
  method Session(script: seq<Request>)
    returns (m: Mem, ghost before: seq<Hand>, ghost after: seq<Hand>, ghost ops: seq<Op>, answers: seq<Answer>)
    ensures fresh(m) && m.Valid()
    ensures |before| == |after| == |ops| == |answers| == |script|
    ensures forall i :: 0 <= i < |script| ==> ops[i] == Wanted(script[i], before[i])
    ensures forall i :: 0 <= i < |script| ==> after[i] == After(script[i], before[i], answers[i])
    ensures (m.State(), answers) == PureRun(EMPTY_MEM, ops)
  {
    hide MemStep, Closed, Mem.State, Mem.Valid, HandOf, PureRun, Wanted, After;
    m := new Mem();
    var p := NOTHING;
    before, after, ops, answers := [], [], [], [];
    ghost var held: set<object> := {};
    EmptyPool();
    NoRun();
    for i := 0 to |script|
      invariant fresh(m) && m.Valid() && fresh(m.Owned())
      invariant Closed(p, held) && fresh(held) && Beside(m, held)
      invariant |before| == |after| == |ops| == |answers| == i
      invariant forall k :: 0 <= k < i ==> ops[k] == Wanted(script[k], before[k])
      invariant forall k :: 0 <= k < i ==> after[k] == After(script[k], before[k], answers[k])
      invariant (m.State(), answers) == PureRun(EMPTY_MEM, ops)
    {
      label Before:
      p, held := Tamper(p, held);
      m.Untouched@Before();
      ghost var h := HandOf(p, held);
      var a;
      a, p, held := Call(m, script[i], p, held);
      ghost var op := Wanted(script[i], h);
      PureRunSnoc(EMPTY_MEM, ops, op);
      before, after := before + [h], after + [HandOf(p, held)];
      ops, answers := ops + [op], answers + [a];
    }
  }

  lemma NoRun()
    ensures PureRun(EMPTY_MEM, []) == (EMPTY_MEM, [])
  {
  }

  lemma EmptyPool()
    ensures Closed(NOTHING, {})
  {
  }
}
