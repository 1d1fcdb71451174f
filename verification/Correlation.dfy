/** `Merge` of internal/correlate/correlate.go on the heap. Each output starts as a struct copy with tools and
    evidence of its own; its CVE and CWE lists stay in the arrays of the caller until they outgrow them. */
module Correlation {
  import opened Text
  import opened Ordering
  import opened Findings
  import opened Slices
  import opened FindingRecords
  import opened SharedSlices
  import opened SharedFull
  import opened Correlate

  datatype Stats = Stats(input: nat, output: nat, merged: nat, corroborated: nat)

  /** No array of the callers serves lists of two kinds. */
  ghost predicate RolesApart(rs: seq<FindingRecord>)
    reads rs
  {
    forall i, j :: 0 <= i < |rs| && 0 <= j < |rs| ==> RolesOf(rs[i].head, rs[j].head)
  }

  ghost predicate RolesOf(f: FindingHead, g: FindingHead) {
    f.tools.backing != g.cve.backing && f.tools.backing != g.cwe.backing && f.cve.backing != g.cwe.backing
  }

  ghost function CveLists(rs: seq<FindingRecord>): (r: seq<Slice<string>>)
    reads rs
    ensures |r| == |rs| && forall i :: 0 <= i < |rs| ==> r[i] == rs[i].head.cve
  {
    seq(|rs|, i requires 0 <= i < |rs| reads rs => rs[i].head.cve)
  }

  ghost function CweLists(rs: seq<FindingRecord>): (r: seq<Slice<string>>)
    reads rs
    ensures |r| == |rs| && forall i :: 0 <= i < |rs| ==> r[i] == rs[i].head.cwe
  {
    seq(|rs|, i requires 0 <= i < |rs| reads rs => rs[i].head.cwe)
  }

  ghost function Backings(lists: seq<Slice<string>>): set<array<string>> {
    set i | 0 <= i < |lists| :: lists[i].backing
  }

  /** The contents of the arrays behind some lists. */
  ghost function Snapshot(lists: seq<Slice<string>>): (h: Heap)
    reads Backings(lists)
    ensures h.Keys == Backings(lists) && forall a :: a in h ==> h[a] == a[..]
  {
    map a | a in Backings(lists) :: a[..]
  }

  /** The heap is what the column says. */
  ghost predicate Mirrors(h: Heap)
    reads h.Keys
  {
    forall a :: a in h ==> a[..] == h[a]
  }

  /** A finding without the two lists whose arrays may be shared. */
  function Bare(f: Finding): Finding { f.(cve := [], cwe := []) }

  lemma BareMerge(f: Finding, o: Finding, g: Finding, p: Finding)
    requires Bare(f) == Bare(g) && Bare(o) == Bare(p)
    ensures Bare(MergeFinding(f, o)) == Bare(MergeFinding(g, p))
  {
    hide MergeUnique, HigherConfidence;
    assert BringsNewTool(f, o) == BringsNewTool(g, p);
  }

  /** Where a list of an output lies: kept in a caller's array, or in one of the output's own. */
  ghost predicate Lies(s: Slice<string>, c: Column, id: string, own: set<object>)
    reads own
  {
    && id in c.held
    && match c.held[id]
       case Kept(t) => s == t && t.backing in c.heap
       case Moved(list) => s.backing in own && s.View() == list
  }

  /** The record of one output so far; `own` are the objects only it has. */
  ghost predicate Stands(r: FindingRecord, v: Finding, cve: Column, cwe: Column, own: set<object>)
    reads own, r, r.head.compliance.backing
  {
    var h := r.head;
    && r in own && h.tools.backing in own && h.evidence.backing in own
    && Lies(h.cve, cve, v.id, own) && Lies(h.cwe, cwe, v.id, own)
    && h.Tidy()
    && Bare(v) == Bare(h.plain).(tools := h.tools.View(), evidence := h.evidence.View(), compliance := h.compliance.View())
  }

  lemma StandsBare(r: FindingRecord, v: Finding, cve: Column, cwe: Column, own: set<object>)
    requires Stands(r, v, cve, cwe, own)
    ensures Bare(r.Value()) == Bare(v) && r.Value().id == v.id == r.head.plain.id
  {
  }

  /** `cp := *f`, with tools and evidence copied. */
  method Start(f: FindingRecord, ghost cve: Column, ghost cwe: Column)
    returns (cp: FindingRecord, ghost own: set<object>)
    requires f.head.cve.backing in cve.heap && f.head.cwe.backing in cwe.heap && RolesOf(f.head, f.head)
    requires f.head.plain.id !in cve.held && f.head.plain.id !in cwe.held
    ensures fresh(own) && cp.head.compliance == f.head.compliance
    ensures Stands(cp, f.Value(), Look(cve, f.head.plain.id, f.head.cve), Look(cwe, f.head.plain.id, f.head.cwe), own)
  {
    cp := new FindingRecord.Shallow(f.head);
    var tools := CopyOf(f.head.tools);
    var evidence := CopyOf(f.head.evidence);
    cp.head := cp.head.(tools := tools, evidence := evidence);
    own := {cp, tools.backing, evidence.backing};
  }

  /** One list of an output after a merge, where the pass over the column says it is. */
  lemma Followed(c: Column, id: string, s: Slice<string>, a: seq<string>, arr: seq<string>, t: Slice<string>, r: Slice<string>,
                 own: set<object>)
    requires id in c.held && a == ListOf(c.heap, c.held[id])
    requires if c.held[id].Kept? then s == c.held[id].s && s.backing in c.heap && arr == c.heap[s.backing] else s.backing !in c.heap
    requires |arr| == s.backing.Length && a == arr[..s.Len()]
    requires s.backing[..] == ArrayAfter(arr, s.Len(), Shown(c.heap, t))
    requires forall x :: x in c.heap && x != s.backing ==> x[..] == c.heap[x]
    requires r.View() == MergeUnique(a, Shown(c.heap, t))
    requires if Fits(s, a, Shown(c.heap, t)) then r == Slice(s.backing, |AppendNew(a, Shown(c.heap, t))|) else r.backing in own
    requires c.held[id].Moved? ==> r.backing in own
    ensures Mirrors(Look(c, id, t).heap) && Lies(r, Look(c, id, t), id, own)
  {
    hide AppendNew, SortStrings, MergeUnique, ArrayAfter;
  }

  lemma MergedLists(f: Finding, o: Finding)
    ensures MergeFinding(f, o).cve == MergeUnique(f.cve, o.cve) && MergeFinding(f, o).cwe == MergeUnique(f.cwe, o.cwe)
  {
    hide MergeUnique;
  }

  /** `cur.Merge(f)` for an output and a finding of a caller. */
  method Fold(cur: FindingRecord, f: FindingRecord, ghost v: Finding, ghost cve: Column, ghost cwe: Column, ghost own: set<object>)
    returns (ghost own': set<object>)
    requires Stands(cur, v, cve, cwe, own) && v.id == f.head.plain.id
    requires Mirrors(cve.heap) && Mirrors(cwe.heap) && cve.heap.Keys !! cwe.heap.Keys
    requires f.head.cve.backing in cve.heap && f.head.cwe.backing in cwe.heap
    requires f.head.tools.backing !in cve.heap && f.head.tools.backing !in cwe.heap
    requires forall o :: o in own ==> o !in f.Repr()
    requires forall a :: a in cve.heap || a in cwe.heap ==> a as object !in own
    modifies own, cve.heap.Keys, cwe.heap.Keys
    ensures own <= own' && forall o :: o in own' ==> o in own || fresh(o)
    ensures cur.head.compliance == old(cur.head.compliance)
    ensures var id := old(f.head.plain.id);
            var cve', cwe' := Look(cve, id, old(f.head.cve)), Look(cwe, id, old(f.head.cwe));
            && Mirrors(cve'.heap) && Mirrors(cwe'.heap)
            && Stands(cur, MergeFinding(v, old(f.Value())), cve', cwe', own')
  {
    hide AppendNew, SortStrings, MergeUnique, ArrayAfter, MergeFinding;
    ghost var id, s, t, fs, ft := v.id, cur.head.cve, cur.head.cwe, f.head.cve, f.head.cwe;
    ghost var sa, ta, sarr, tarr := s.View(), t.View(), s.backing[..], t.backing[..];
    ghost var was, other := cur.Value(), f.Value();
    StandsBare(cur, v, cve, cwe, own);
    ghost var fa, fb := fs.View(), ft.View();
    assert Shown(cve.heap, fs) == fa && Shown(cwe.heap, ft) == fb;
    assert cur.head.tools.backing !in cve.heap && cur.head.tools.backing !in cwe.heap;
    assert t.backing !in cve.heap && s.backing !in cwe.heap;
    assert cve.held[id].Moved? ==> s.backing !in cve.heap;
    assert cwe.held[id].Moved? ==> t.backing !in cwe.heap;
    cur.Merge(f);
    MergedLists(was, other);
    assert cur.head.cve.View() == cur.Value().cve && cur.head.cwe.View() == cur.Value().cwe;
    own' := own + set o | o in cur.head.Arrays() && fresh(o);
    Followed(cve, id, s, sa, sarr, fs, cur.head.cve, own');
    Followed(cwe, id, t, ta, tarr, ft, cur.head.cwe, own');
    BareMerge(was, other, v, other);
    assert Bare(cur.Value()) == Bare(MergeFinding(v, other));
  }

  // ----- all outputs together -----

  ghost function AllOf(owns: seq<set<object>>): set<object> {
    set k, o | 0 <= k < |owns| && o in owns[k] :: o
  }

  /** Each output stands over objects of its own; `outside` is everything of the callers. */
  ghost predicate AllStand(recs: seq<FindingRecord>, acc: seq<Finding>, cve: Column, cwe: Column, owns: seq<set<object>>, outside: set<object>)
    reads AllOf(owns), recs, set k | 0 <= k < |recs| :: recs[k].head.compliance.backing
  {
    && |recs| == |acc| == |owns|
    && (forall k :: 0 <= k < |recs| ==> Stands(recs[k], acc[k], cve, cwe, owns[k]))
    && (forall k :: 0 <= k < |recs| ==> recs[k].head.compliance.backing in outside)
    && (forall k, l :: 0 <= k < l < |owns| ==> owns[k] !! owns[l])
    && (forall k :: 0 <= k < |owns| ==> owns[k] !! outside)
  }

  /** The columns moved on for another identity. */
  lemma StandsOn(r: FindingRecord, v: Finding, cve: Column, cwe: Column, own: set<object>, id: string, s: Slice<string>, t: Slice<string>)
    requires Stands(r, v, cve, cwe, own) && v.id != id
    requires id in cve.held && cve.held[id].Kept? ==> cve.held[id].s.backing in cve.heap
    requires id in cwe.held && cwe.held[id].Kept? ==> cwe.held[id].s.backing in cwe.heap
    ensures Stands(r, v, Look(cve, id, s), Look(cwe, id, t), own)
  {
    hide AppendNew, MergeUnique, ArrayAfter;
  }

  method FoldAt(ghost recs: seq<FindingRecord>, ghost j: nat, cur: FindingRecord, f: FindingRecord, ghost acc: seq<Finding>, ghost cve: Column, ghost cwe: Column,
                ghost owns: seq<set<object>>, ghost outside: set<object>)
    returns (ghost owns': seq<set<object>>)
    requires AllStand(recs, acc, cve, cwe, owns, outside) && j < |recs| && cur == recs[j] && acc[j].id == f.head.plain.id
    requires forall k :: 0 <= k < |acc| && k != j ==> acc[k].id != acc[j].id
    requires Mirrors(cve.heap) && Mirrors(cwe.heap) && cve.heap.Keys !! cwe.heap.Keys
    requires f.head.cve.backing in cve.heap && f.head.cwe.backing in cwe.heap
    requires f.head.tools.backing !in cve.heap && f.head.tools.backing !in cwe.heap
    requires f.Repr() <= outside && forall a :: a in cve.heap || a in cwe.heap ==> a as object in outside
    modifies owns[j], cve.heap.Keys, cwe.heap.Keys
    ensures var id := old(f.head.plain.id);
            var cve', cwe' := Look(cve, id, old(f.head.cve)), Look(cwe, id, old(f.head.cwe));
            && Mirrors(cve'.heap) && Mirrors(cwe'.heap)
            && AllStand(recs, acc[j := MergeFinding(acc[j], old(f.Value()))], cve', cwe', owns', outside)
    ensures |owns'| == |owns| && forall k, o :: 0 <= k < |owns| && o in owns'[k] ==> o in owns[k] || fresh(o)
  {
    hide Look, MergeFinding, Mirrors, FindingRecord.Value, Stands;
    ghost var id, fs, ft, v := f.head.plain.id, f.head.cve, f.head.cwe, MergeFinding(acc[j], f.Value());
    KeptInHeap(recs[j], acc[j], cve, cwe, owns[j]);
    assert forall k :: 0 <= k < |recs| && k != j ==> owns[k] !! owns[j];
    StandInTheirOwn(recs, acc, cve, cwe, owns, outside);
    ghost var own := Fold(cur, f, acc[j], cve, cwe, owns[j]);
    owns' := owns[j := own];
    forall k | 0 <= k < |recs| && k != j
      ensures Stands(recs[k], acc[k], Look(cve, id, fs), Look(cwe, id, ft), owns[k]) {
      StandsOn(recs[k], acc[k], cve, cwe, owns[k], id, fs, ft);
    }
    OneStandsAnew(recs, acc, v, Look(cve, id, fs), Look(cwe, id, ft), owns, own, j, outside);
  }

  lemma StandInTheirOwn(recs: seq<FindingRecord>, acc: seq<Finding>, cve: Column, cwe: Column, owns: seq<set<object>>, outside: set<object>)
    requires AllStand(recs, acc, cve, cwe, owns, outside)
    ensures forall k :: 0 <= k < |recs| ==> recs[k] in owns[k]
  {
  }

  lemma OneStandsAnew(recs: seq<FindingRecord>, acc: seq<Finding>, v: Finding, cve: Column, cwe: Column, owns: seq<set<object>>,
                      own: set<object>, j: nat, outside: set<object>)
    requires |recs| == |acc| == |owns| && j < |recs| && Stands(recs[j], v, cve, cwe, own)
    requires forall k :: 0 <= k < |recs| && k != j ==> Stands(recs[k], acc[k], cve, cwe, owns[k])
    requires forall k :: 0 <= k < |recs| ==> recs[k].head.compliance.backing in outside
    requires forall k, l :: 0 <= k < l < |owns| ==> owns[k] !! owns[l]
    requires own !! outside && forall k :: 0 <= k < |owns| && k != j ==> owns[k] !! own && owns[k] !! outside
    ensures AllStand(recs, acc[j := v], cve, cwe, owns[j := own], outside)
  {
    hide Stands;
  }

  lemma KeptInHeap(r: FindingRecord, v: Finding, cve: Column, cwe: Column, own: set<object>)
    requires Stands(r, v, cve, cwe, own)
    ensures v.id in cve.held && (cve.held[v.id].Kept? ==> cve.held[v.id].s.backing in cve.heap)
    ensures v.id in cwe.held && (cwe.held[v.id].Kept? ==> cwe.held[v.id].s.backing in cwe.heap)
  {
  }

  /** An output that stands for a value stands for any that differs in the two lists only. */
  lemma StandForAnother(recs: seq<FindingRecord>, acc: seq<Finding>, bcc: seq<Finding>, cve: Column, cwe: Column,
                        owns: seq<set<object>>, outside: set<object>)
    requires AllStand(recs, acc, cve, cwe, owns, outside) && |acc| == |bcc|
    requires forall k :: 0 <= k < |acc| ==> Bare(acc[k]) == Bare(bcc[k])
    ensures AllStand(recs, bcc, cve, cwe, owns, outside)
  {
    forall k | 0 <= k < |acc| ensures acc[k].id == bcc[k].id {
      assert Bare(acc[k]).id == Bare(bcc[k]).id;
    }
  }

  method StartAt(ghost recs: seq<FindingRecord>, f: FindingRecord, ghost acc: seq<Finding>, ghost cve: Column, ghost cwe: Column,
                 ghost owns: seq<set<object>>, ghost outside: set<object>)
    returns (cp: FindingRecord, ghost own: set<object>)
    requires AllStand(recs, acc, cve, cwe, owns, outside) && Mirrors(cve.heap) && Mirrors(cwe.heap)
    requires f.head.plain.id !in cve.held && f.head.plain.id !in cwe.held && f.Repr() <= outside
    requires f.head.cve.backing in cve.heap && f.head.cwe.backing in cwe.heap && RolesOf(f.head, f.head)
    requires forall k :: 0 <= k < |acc| ==> acc[k].id != f.head.plain.id
    ensures fresh(own) && Mirrors(cve.heap) && Mirrors(cwe.heap)
    ensures var id := f.head.plain.id;
            AllStand(recs + [cp], acc + [f.Value()], Look(cve, id, f.head.cve), Look(cwe, id, f.head.cwe), owns + [own], outside)
  {
    hide Look, MergeFinding, FindingRecord.Value;
    ghost var id, fs, ft := f.head.plain.id, f.head.cve, f.head.cwe;
    cp, own := Start(f, cve, cwe);
    forall k | 0 <= k < |recs| ensures Stands(recs[k], acc[k], Look(cve, id, fs), Look(cwe, id, ft), owns[k]) {
      StandsOn(recs[k], acc[k], cve, cwe, owns[k], id, fs, ft);
    }
  }

  // ----- the pass -----

  /** How far the first loop has come: `acc` is the fold of the values seen, `cve` and `cwe` where the lists lie. */
  ghost predicate Reached(i: nat, vals: seq<Finding>, cves: seq<Slice<string>>, cwes: seq<Slice<string>>, h: Heap, g: Heap,
                          acc: seq<Finding>, cve: Column, cwe: Column)
    requires |vals| == |cves| == |cwes| && i <= |vals|
  {
    && acc == FoldIn([], vals[..i])
    && cve == Pass(h, Ids(vals)[..i], cves[..i]) && cwe == Pass(g, Ids(vals)[..i], cwes[..i])
    && cve.heap.Keys == h.Keys && cwe.heap.Keys == g.Keys
    && (forall id :: id in cve.held <==> id in Ids(acc)) && (forall id :: id in cwe.held <==> id in Ids(acc))
    && (forall id :: id in cve.held && cve.held[id].Kept? ==> cve.held[id].s.backing in h)
    && (forall id :: id in cwe.held && cwe.held[id].Kept? ==> cwe.held[id].s.backing in g)
  }

  lemma Reaching(i: nat, vals: seq<Finding>, cves: seq<Slice<string>>, cwes: seq<Slice<string>>, h: Heap, g: Heap,
                 acc: seq<Finding>, cve: Column, cwe: Column)
    requires |vals| == |cves| == |cwes| && i < |vals| && Reached(i, vals, cves, cwes, h, g, acc, cve, cwe) && DistinctIds(acc)
    requires cves[i].backing in h && cwes[i].backing in g
    ensures Reached(i + 1, vals, cves, cwes, h, g, FoldOne(acc, vals[i]), Look(cve, vals[i].id, cves[i]), Look(cwe, vals[i].id, cwes[i]))
    ensures DistinctIds(FoldOne(acc, vals[i]))
  {
    hide FoldOne, Look, FoldIn, Pass, ListOf;
    TakeNext(vals, i);
    FoldInSnoc([], vals[..i], vals[i]);
    PassSnoc(h, Ids(vals), cves, i);
    PassSnoc(g, Ids(vals), cwes, i);
    FoldOneIds(acc, vals[i]);
    LookHeld(cve, vals[i].id, cves[i]);
    LookHeld(cwe, vals[i].id, cwes[i]);
  }

  lemma LookHeld(c: Column, id: string, s: Slice<string>)
    requires s.backing in c.heap
    requires forall x :: x in c.held && c.held[x].Kept? ==> c.held[x].s.backing in c.heap
    ensures var d := Look(c, id, s);
            && d.heap.Keys == c.heap.Keys && d.held.Keys == c.held.Keys + {id}
            && forall x :: x in d.held && d.held[x].Kept? ==> d.held[x].s.backing in c.heap
  {
    hide AppendNew, MergeUnique, ArrayAfter;
  }

  /** The inputs are as they were but for what lies in the arrays of their CVE and CWE lists. */
  ghost predicate Unread(input: seq<FindingRecord>, heads: seq<FindingHead>, vals: seq<Finding>)
    reads input, Objects(input)
  {
    && |input| == |heads| == |vals|
    && forall k :: 0 <= k < |input| ==> input[k].head == heads[k] && Bare(input[k].Value()) == Bare(vals[k])
  }

  ghost predicate Indexed(index: map<string, FindingRecord>, order: seq<string>, recs: seq<FindingRecord>) {
    && |recs| == |order| && (forall id :: id in index <==> id in order)
    && forall k :: 0 <= k < |order| ==> order[k] in index && index[order[k]] == recs[k]
  }

  /** What the pass starts from: the findings, their lists, and the contents of the arrays behind these. */
  datatype Scene = Scene(vals: seq<Finding>, heads: seq<FindingHead>, cves: seq<Slice<string>>, cwes: seq<Slice<string>>,
                         h: Heap, g: Heap, outside: set<object>)

  /** Where it stands: the fold so far, the two columns, the outputs and what each has to itself. */
  datatype Progress = Progress(acc: seq<Finding>, cve: Column, cwe: Column, recs: seq<FindingRecord>, owns: seq<set<object>>)

  ghost predicate Sound(input: seq<FindingRecord>, z: Scene, i: nat, p: Progress)
    reads input, Objects(input), p.cve.heap.Keys, p.cwe.heap.Keys
    reads AllOf(p.owns), p.recs, set k | 0 <= k < |p.recs| :: p.recs[k].head.compliance.backing
  {
    && |z.vals| == |z.cves| == |z.cwes| == |input| && i <= |input|
    && Reached(i, z.vals, z.cves, z.cwes, z.h, z.g, p.acc, p.cve, p.cwe) && DistinctIds(p.acc)
    && Mirrors(p.cve.heap) && Mirrors(p.cwe.heap) && Unread(input, z.heads, z.vals)
    && AllStand(p.recs, p.acc, p.cve, p.cwe, p.owns, z.outside)
  }

  /** The scene fits the inputs. */
  ghost predicate Set(input: seq<FindingRecord>, z: Scene)
    reads input
  {
    && |input| == |z.heads| == |z.cves| == |z.cwes|
    && (forall k :: 0 <= k < |input| ==> z.cves[k] == z.heads[k].cve && z.cwes[k] == z.heads[k].cwe && input[k].Repr() <= z.outside)
    && (forall k :: 0 <= k < |input| ==> z.cves[k].backing in z.h && z.cwes[k].backing in z.g)
    && (forall a :: a in z.h.Keys ==> a in z.outside) && (forall a :: a in z.g.Keys ==> a in z.outside)
    && (forall a :: a in z.h.Keys ==> a !in z.g)
    && (forall k :: 0 <= k < |input| ==> z.heads[k].tools.backing !in z.h && z.heads[k].tools.backing !in z.g)
    && (forall k :: 0 <= k < |input| ==> RolesOf(z.heads[k], z.heads[k]))
  }

  /** What the pass writes leaves tools, evidence and controls of the inputs alone. */
  method FoldQuietly(input: seq<FindingRecord>, ghost z: Scene, i: nat, ghost p: Progress, ghost j: nat, cur: FindingRecord)
    returns (ghost owns: seq<set<object>>)
    requires i < |input| && Set(input, z) && Sound(input, z, i, p)
    requires j < |p.recs| && cur == p.recs[j] && p.acc[j].id == input[i].head.plain.id
    modifies p.owns[j], p.cve.heap.Keys, p.cwe.heap.Keys
    ensures Set(input, z) && Unread(input, z.heads, z.vals)
    ensures var id := old(input[i].head.plain.id);
            var cve', cwe' := Look(p.cve, id, z.cves[i]), Look(p.cwe, id, z.cwes[i]);
            && Mirrors(cve'.heap) && Mirrors(cwe'.heap)
            && AllStand(p.recs, p.acc[j := MergeFinding(p.acc[j], old(input[i].Value()))], cve', cwe', owns, z.outside)
    ensures |owns| == |p.owns| && forall k, o :: 0 <= k < |p.owns| && o in owns[k] ==> o in p.owns[k] || fresh(o)
  {
    hide FoldIn, FoldOne, Look, Pass, MergeFinding, Stands;
    OthersDiffer(p.acc, j);
    owns := FoldAt(p.recs, j, cur, input[i], p.acc, p.cve, p.cwe, p.owns, z.outside);
  }

  method SeeKnown(input: seq<FindingRecord>, ghost z: Scene, i: nat, ghost p: Progress, ghost j: nat, cur: FindingRecord)
    returns (ghost q: Progress)
    requires i < |input| && Set(input, z) && Sound(input, z, i, p)
    requires j < |p.recs| && cur == p.recs[j] && p.acc[j].id == input[i].head.plain.id
    modifies p.owns[j], p.cve.heap.Keys, p.cwe.heap.Keys
    ensures Set(input, z) && Sound(input, z, i + 1, q) && q.recs == p.recs && Ids(q.acc) == Ids(p.acc)
    ensures |q.owns| == |p.owns| && forall k, o :: 0 <= k < |p.owns| && o in q.owns[k] ==> o in p.owns[k] || fresh(o)
  {
    hide FoldIn, FoldOne, Look, Pass, MergeFinding, Stands;
    var f := input[i];
    ghost var id, fv := f.head.plain.id, f.Value();
    assert Bare(fv).id == Bare(z.vals[i]).id == id;
    Reaching(i, z.vals, z.cves, z.cwes, z.h, z.g, p.acc, p.cve, p.cwe);
    ghost var owns := FoldQuietly(input, z, i, p, j, cur);
    FoldOneHit(p.acc, z.vals[i], j);
    BareMerge(p.acc[j], fv, p.acc[j], z.vals[i]);
    q := Progress(FoldOne(p.acc, z.vals[i]), Look(p.cve, id, z.cves[i]), Look(p.cwe, id, z.cwes[i]), p.recs, owns);
    StandForAnother(p.recs, p.acc[j := MergeFinding(p.acc[j], fv)], q.acc, q.cve, q.cwe, owns, z.outside);
  }

  lemma OthersDiffer(acc: seq<Finding>, j: nat)
    requires DistinctIds(acc) && j < |acc|
    ensures forall k :: 0 <= k < |acc| && k != j ==> acc[k].id != acc[j].id
  {
    assert forall k :: 0 <= k < |acc| ==> Ids(acc)[k] == acc[k].id;
  }

  method StartQuietly(input: seq<FindingRecord>, ghost z: Scene, i: nat, ghost p: Progress)
    returns (cp: FindingRecord, ghost own: set<object>)
    requires i < |input| && Set(input, z) && Sound(input, z, i, p)
    requires input[i].head.plain.id !in Ids(p.acc)
    ensures fresh(own) && Set(input, z) && Unread(input, z.heads, z.vals) && input[i].Value() == old(input[i].Value())
    ensures var id := input[i].head.plain.id;
            var cve', cwe' := Look(p.cve, id, z.cves[i]), Look(p.cwe, id, z.cwes[i]);
            && Mirrors(p.cve.heap) && Mirrors(p.cwe.heap)
            && AllStand(p.recs + [cp], p.acc + [input[i].Value()], cve', cwe', p.owns + [own], z.outside)
  {
    hide FoldIn, FoldOne, Look, Pass, MergeFinding, Stands;
    assert forall k :: 0 <= k < |p.acc| ==> Ids(p.acc)[k] == p.acc[k].id;
    cp, own := StartAt(p.recs, input[i], p.acc, p.cve, p.cwe, p.owns, z.outside);
  }

  /** Keeping a list where it is writes nothing. */
  lemma LookNew(c: Column, id: string, s: Slice<string>)
    requires id !in c.held
    ensures Look(c, id, s).heap == c.heap
  {
  }

  method SeeNew(input: seq<FindingRecord>, ghost z: Scene, i: nat, ghost p: Progress)
    returns (cp: FindingRecord, ghost q: Progress)
    requires i < |input| && Set(input, z) && Sound(input, z, i, p)
    requires input[i].head.plain.id !in Ids(p.acc)
    ensures Set(input, z) && Sound(input, z, i + 1, q)
    ensures q.recs == p.recs + [cp] && Ids(q.acc) == Ids(p.acc) + [input[i].head.plain.id]
    ensures exists own :: fresh(own) && q.owns == p.owns + [own]
  {
    hide FoldIn, FoldOne, Look, Pass, MergeFinding, Stands;
    var f := input[i];
    ghost var id, fv := f.head.plain.id, f.Value();
    assert Bare(fv).id == Bare(z.vals[i]).id == id;
    Reaching(i, z.vals, z.cves, z.cwes, z.h, z.g, p.acc, p.cve, p.cwe);
    FoldOneMiss(p.acc, z.vals[i]);
    LookNew(p.cve, id, z.cves[i]);
    LookNew(p.cwe, id, z.cwes[i]);
    ghost var own;
    cp, own := StartQuietly(input, z, i, p);
    q := Progress(FoldOne(p.acc, z.vals[i]), Look(p.cve, id, z.cves[i]), Look(p.cwe, id, z.cwes[i]), p.recs + [cp], p.owns + [own]);
    StandForAnother(q.recs, p.acc + [fv], q.acc, q.cve, q.cwe, q.owns, z.outside);
  }

  /** The first loop: one output per identity, in order of first appearance. */
  method Gather(input: seq<FindingRecord>, ghost z: Scene)
    returns (index: map<string, FindingRecord>, order: seq<string>, merged: nat, ghost p: Progress)
    requires Set(input, z) && Sound(input, z, 0, Progress([], Column(z.h, map[]), Column(z.g, map[]), [], []))
    modifies z.h.Keys, z.g.Keys
    ensures Sound(input, z, |input|, p) && forall k, o :: 0 <= k < |p.owns| && o in p.owns[k] ==> fresh(o)
    ensures order == Ids(p.acc) && Indexed(index, order, p.recs) && |input| == |order| + merged
  {
    hide *;
    index, order, merged := map[], [], 0;
    p := Progress([], Column(z.h, map[]), Column(z.g, map[]), [], []);
    NoIds();
    for i := 0 to |input|
      invariant i == |order| + merged && Set(input, z) && Sound(input, z, i, p)
      invariant p.cve.heap.Keys == z.h.Keys && p.cwe.heap.Keys == z.g.Keys
      invariant forall k, o :: 0 <= k < |p.owns| && o in p.owns[k] ==> fresh(o)
      invariant order == Ids(p.acc) && Indexed(index, order, p.recs)
    {
      var f := input[i];
      var id := f.head.plain.id;
      StandingAt(input, z, i, p);
      ghost var j := Place(index, order, p.recs, id);
      if id in index {
        p := SeeKnown(input, z, i, p, j, index[id]);
        merged := merged + 1;
      } else {
        var cp;
        ghost var recs := p.recs;
        cp, p := SeeNew(input, z, i, p);
        IndexedNext(index, order, recs, id, cp);
        index, order := index[id := cp], order + [id];
      }
      StandingAt(input, z, i + 1, p);
    }
  }

  /** Where the index points. */
  lemma Place(index: map<string, FindingRecord>, order: seq<string>, recs: seq<FindingRecord>, id: string) returns (j: nat)
    requires Indexed(index, order, recs)
    ensures if id in index then j < |order| && order[j] == id && index[id] == recs[j] else id !in order
  {
    j := 0;
    if id in index {
      j :| 0 <= j < |order| && order[j] == id;
    }
  }

  lemma NoIds()
    ensures Ids([]) == [] && Indexed(map[], [], [])
  {
  }

  lemma IndexedNext(index: map<string, FindingRecord>, order: seq<string>, recs: seq<FindingRecord>, id: string, cp: FindingRecord)
    requires Indexed(index, order, recs) && id !in order
    ensures Indexed(index[id := cp], order + [id], recs + [cp])
  {
  }

  lemma StandingAt(input: seq<FindingRecord>, z: Scene, i: nat, p: Progress)
    requires Sound(input, z, i, p)
    ensures |p.recs| == |p.acc| == |p.owns| == |Ids(p.acc)| && forall j :: 0 <= j < |p.acc| ==> p.acc[j].id == Ids(p.acc)[j]
    ensures p.cve.heap.Keys == z.h.Keys && p.cwe.heap.Keys == z.g.Keys
  {
    hide Stands, Unread, Mirrors;
  }

  lemma ReachedNothing(vals: seq<Finding>, cves: seq<Slice<string>>, cwes: seq<Slice<string>>, h: Heap, g: Heap)
    requires |vals| == |cves| == |cwes|
    ensures FoldIn([], []) == [] && Ids([]) == [] && DistinctIds([])
    ensures Reached(0, vals, cves, cwes, h, g, [], Column(h, map[]), Column(g, map[]))
  {
  }

  /** The second loop: the outputs in order of first appearance, and how many tools agreed on. */
  method InOrder(index: map<string, FindingRecord>, order: seq<string>, ghost input: seq<FindingRecord>, ghost z: Scene, ghost p: Progress)
    returns (out: seq<FindingRecord>, corroborated: nat)
    requires Indexed(index, order, p.recs) && Sound(input, z, |input|, p)
    ensures out == p.recs && corroborated == |Filter(Corroborated, p.acc)|
    ensures Sound(input, z, |input|, p)
  {
    hide Filter, Corroborated, Sound, Left;
    corroborated := 0;
    out := [];
    Ends(input, z, p);
    FilterNothing(p.acc);
    for i := 0 to |order|
      invariant out == p.recs[..i] && Sound(input, z, |input|, p)
      invariant corroborated == |Filter(Corroborated, p.acc[..i])|
    {
      var f := index[order[i]];
      TakeNext(p.acc, i);
      TakeNext(p.recs, i);
      CorroboratedSnoc(p.acc[..i], p.acc[i]);
      if f.head.tools.Len() > 1 {
        corroborated := corroborated + 1;
      }
      out := out + [f];
    }
    assert p.recs[..|order|] == p.recs && p.acc[..|order|] == p.acc;
  }

  /** Where a pass over one column leaves the list of an identity. */
  ghost function Left(c: Column, id: string): seq<string> {
    if id in c.held then ListOf(c.heap, c.held[id]) else []
  }

  lemma StandsFor(r: FindingRecord, v: Finding, cve: Column, cwe: Column, own: set<object>)
    requires Stands(r, v, cve, cwe, own) && Mirrors(cve.heap) && Mirrors(cwe.heap)
    ensures r.Value() == v.(cve := Left(cve, v.id), cwe := Left(cwe, v.id)) && r.head.tools.View() == v.tools
  {
  }

  // ----- when lists that share an array fill it -----

  /** The lists the folded finding of each group has, from the lists its members had. */
  ghost predicate FoldedLists(vals: seq<Finding>, h: Heap, g: Heap, cves: seq<Slice<string>>, cwes: seq<Slice<string>>, i: nat,
                              acc: seq<Finding>, p: nat)
    requires |vals| == |cves| == |cwes| && i <= |vals| && p < |vals|
  {
    var ids := Ids(vals);
    var k := IndexOf(acc, ids[p]);
    && k < |acc|
    && acc[k].cve == Chain([Shown(h, cves[p])] + Later(h, ids, cves, p, i))
    && acc[k].cwe == Chain([Shown(g, cwes[p])] + Later(g, ids, cwes, p, i))
  }

  ghost predicate Listed(vals: seq<Finding>, h: Heap, g: Heap, cves: seq<Slice<string>>, cwes: seq<Slice<string>>) {
    && |vals| == |cves| == |cwes|
    && forall q :: 0 <= q < |vals| ==> vals[q].cve == Shown(h, cves[q]) && vals[q].cwe == Shown(g, cwes[q])
  }

  lemma FoldedListsNext(vals: seq<Finding>, h: Heap, g: Heap, cves: seq<Slice<string>>, cwes: seq<Slice<string>>, i: nat,
                        acc: seq<Finding>, p: nat)
    requires Listed(vals, h, g, cves, cwes) && p <= i < |vals| && First(Ids(vals), p)
    requires DistinctIds(acc) && (forall id :: id in Ids(acc) <==> id in Ids(vals)[..i])
    requires p < i ==> FoldedLists(vals, h, g, cves, cwes, i, acc, p)
    ensures FoldedLists(vals, h, g, cves, cwes, i + 1, FoldOne(acc, vals[i]), p)
  {
    hide MergeFinding, Chain, Later, Shown;
    var ids := Ids(vals);
    var f := vals[i];
    var next := FoldOne(acc, f);
    assert ids[i] == f.id && ids[p] == vals[p].id;
    FoldOneIds(acc, f);
    if p == i {
      assert ids[i] !in ids[..i];
      FoldOneMiss(acc, f);
      IndexOfDistinct(next, |acc|);
      NothingLater(h, ids, cves, i);
      NothingLater(g, ids, cwes, i);
    } else {
      var k := IndexOf(acc, ids[p]);
      LaterSkips(h, ids, cves, p, i);
      LaterSkips(g, ids, cwes, p, i);
      MergedLists(acc[k], f);
      if f.id == ids[p] {
        FoldOneHit(acc, f, k);
        ChainSnoc([Shown(h, cves[p])] + Later(h, ids, cves, p, i), f.cve);
        ChainSnoc([Shown(g, cwes[p])] + Later(g, ids, cwes, p, i), f.cwe);
        ConcatAssociative([Shown(h, cves[p])], Later(h, ids, cves, p, i), [f.cve]);
        ConcatAssociative([Shown(g, cwes[p])], Later(g, ids, cwes, p, i), [f.cwe]);
      } else {
        assert Later(h, ids, cves, p, i) + [] == Later(h, ids, cves, p, i);
        assert Later(g, ids, cwes, p, i) + [] == Later(g, ids, cwes, p, i);
      }
      assert next[k].id == ids[p];
      IndexOfDistinct(next, k);
    }
  }

  lemma NothingLater(h: Heap, ids: seq<string>, lists: seq<Slice<string>>, p: nat)
    requires p < |ids| == |lists|
    ensures Later(h, ids, lists, p, p + 1) == [] && Chain([Shown(h, lists[p])] + []) == Shown(h, lists[p])
  {
    assert [Shown(h, lists[p])] + [] == [Shown(h, lists[p])];
  }

  lemma {:induction false} FoldedColumns(vals: seq<Finding>, h: Heap, g: Heap, cves: seq<Slice<string>>, cwes: seq<Slice<string>>, i: nat)
    requires |vals| == |cves| == |cwes| && Listed(vals, h, g, cves, cwes) && i <= |vals|
    ensures var acc := FoldIn([], vals[..i]);
            && DistinctIds(acc) && (forall id :: id in Ids(acc) <==> id in Ids(vals)[..i])
            && forall p :: 0 <= p < i && First(Ids(vals), p) ==> FoldedLists(vals, h, g, cves, cwes, i, acc, p)
  {
    hide FoldedLists, FoldOne, Listed;
    if i > 0 {
      FoldedColumns(vals, h, g, cves, cwes, i - 1);
      var acc := FoldIn([], vals[..i - 1]);
      TakeNext(vals, i - 1);
      FoldInSnoc([], vals[..i - 1], vals[i - 1]);
      FoldOneIds(acc, vals[i - 1]);
      TakeNext(Ids(vals), i - 1);
      forall p | 0 <= p < i && First(Ids(vals), p) ensures FoldedLists(vals, h, g, cves, cwes, i, FoldOne(acc, vals[i - 1]), p) {
        FoldedListsNext(vals, h, g, cves, cwes, i - 1, acc, p);
      }
    }
  }

  /** Where the pass leaves the list of one group, the fold has it too, exactly if the group keeps its order. */
  lemma GroupHolds(vals: seq<Finding>, h: Heap, g: Heap, cves: seq<Slice<string>>, cwes: seq<Slice<string>>, p: nat)
    returns (k: nat)
    requires |vals| == |cves| == |cwes| && Listed(vals, h, g, cves, cwes) && p < |vals| && First(Ids(vals), p)
    requires Covers(h, cves) && Covers(g, cwes) && SharersFill(cves) && SharersFill(cwes)
    ensures k < |FoldIn([], vals)|
    ensures var f, ids := FoldIn([], vals)[k], Ids(vals);
            && f.id == ids[p]
            && (Left(Pass(h, ids, cves), f.id) == f.cve <==> KeepsOrder(h, ids, cves, p))
            && (Left(Pass(g, ids, cwes), f.id) == f.cwe <==> KeepsOrder(g, ids, cwes, p))
  {
    hide FoldIn, Pass, Covers, SharersFill, Listed, FoldedLists, First, Chain, Later, Shown, MergeFinding, KeepsOrder, ListOf;
    var n, folded, ids := |vals|, FoldIn([], vals), Ids(vals);
    assert vals[..n] == vals && ids[..n] == ids;
    FoldedColumns(vals, h, g, cves, cwes, n);
    assert FoldedLists(vals, h, g, cves, cwes, n, folded, p);
    ListsFolded(vals, h, g, cves, cwes, folded, p);
    k := IndexOf(folded, ids[p]);
    GroupKeepsItsListExactlyWhen(h, ids, cves, p);
    GroupKeepsItsListExactlyWhen(g, ids, cwes, p);
  }

  /** The pass leaves finding `k` of the fold the lists that the fold has. */
  ghost predicate AsFolded(vals: seq<Finding>, h: Heap, g: Heap, cves: seq<Slice<string>>, cwes: seq<Slice<string>>, k: nat)
    requires |vals| == |cves| == |cwes| && k < |FoldIn([], vals)|
  {
    var f := FoldIn([], vals)[k];
    Left(Pass(h, Ids(vals), cves), f.id) == f.cve && Left(Pass(g, Ids(vals), cwes), f.id) == f.cwe
  }

  /** The pass leaves exactly the folded findings if and only if every group keeps its order in both columns. */
  lemma FoldHoldsExactlyWhen(vals: seq<Finding>, h: Heap, g: Heap, cves: seq<Slice<string>>, cwes: seq<Slice<string>>)
    requires |vals| == |cves| == |cwes| && Listed(vals, h, g, cves, cwes)
    requires Covers(h, cves) && Covers(g, cwes) && SharersFill(cves) && SharersFill(cwes)
    ensures (forall k :: 0 <= k < |FoldIn([], vals)| ==> AsFolded(vals, h, g, cves, cwes, k))
            <==> OrderKept(h, Ids(vals), cves) && OrderKept(g, Ids(vals), cwes)
  {
    hide FoldIn, Left, Pass, Covers, SharersFill, Listed, KeepsOrder, First;
    var folded, ids := FoldIn([], vals), Ids(vals);
    FoldedIds(vals);
    forall k | 0 <= k < |folded| && OrderKept(h, ids, cves) && OrderKept(g, ids, cwes)
      ensures AsFolded(vals, h, g, cves, cwes, k) {
      assert Ids(folded)[k] == folded[k].id && folded[k].id in ids;
      var p := FirstOf(ids, folded[k].id);
      var j := GroupHolds(vals, h, g, cves, cwes, p);
      OneOfEach(folded, j, k);
    }
    forall p | 0 <= p < |ids| && First(ids, p) && forall k :: 0 <= k < |folded| ==> AsFolded(vals, h, g, cves, cwes, k)
      ensures KeepsOrder(h, ids, cves, p) && KeepsOrder(g, ids, cwes, p) {
      var k := GroupHolds(vals, h, g, cves, cwes, p);
      assert AsFolded(vals, h, g, cves, cwes, k);
    }
  }

  lemma OneOfEach(fs: seq<Finding>, i: nat, j: nat)
    requires i < |fs| && j < |fs| && DistinctIds(fs) && fs[i].id == fs[j].id
    ensures i == j
  {
    IndexOfDistinct(fs, i);
    IndexOfDistinct(fs, j);
  }

  lemma ListsFolded(vals: seq<Finding>, h: Heap, g: Heap, cves: seq<Slice<string>>, cwes: seq<Slice<string>>,
                    folded: seq<Finding>, p: nat)
    requires |vals| == |cves| == |cwes| && p < |vals| && FoldedLists(vals, h, g, cves, cwes, |vals|, folded, p)
    ensures var ids := Ids(vals); var k := IndexOf(folded, ids[p]);
            && k < |folded| && folded[k].cve == Chain([Shown(h, cves[p])] + Later(h, ids, cves, p, |vals|))
            && folded[k].cwe == Chain([Shown(g, cwes[p])] + Later(g, ids, cwes, p, |vals|))
  {
  }

  /** The columns as a pass over the scene leaves them. */
  ghost function CvesOf(z: Scene): Column
    requires |z.vals| == |z.cves|
  {
    Pass(z.h, Ids(z.vals), z.cves)
  }

  ghost function CwesOf(z: Scene): Column
    requires |z.vals| == |z.cwes|
  {
    Pass(z.g, Ids(z.vals), z.cwes)
  }

  /** The outputs are the folded values, but for the CVE and CWE lists: those are what a pass over each column
      leaves, and so are the callers' arrays. */
  ghost predicate Outcome(z: Scene, out: seq<FindingRecord>, st: Stats)
    requires |z.vals| == |z.cves| == |z.cwes|
    reads out, Objects(out), CvesOf(z).heap.Keys, CwesOf(z).heap.Keys
  {
    var folded := FoldIn([], z.vals);
    && Mirrors(CvesOf(z).heap) && Mirrors(CwesOf(z).heap) && |out| == |folded|
    && (forall k :: 0 <= k < |out| ==>
         out[k].Value() == folded[k].(cve := Left(CvesOf(z), folded[k].id), cwe := Left(CwesOf(z), folded[k].id)))
    && st.input == |z.vals| && st.output == |out| && st.input == st.output + st.merged
    && st.corroborated == |Filter(Corroborated, folded)|
  }

  /** Both loops. */
  method Correlated(input: seq<FindingRecord>) returns (out: seq<FindingRecord>, st: Stats)
    requires RolesApart(input)
    modifies Backings(CveLists(input)), Backings(CweLists(input))
    ensures forall k :: 0 <= k < |out| ==> fresh(out[k]) && fresh(out[k].head.tools.backing) && fresh(out[k].head.evidence.backing)
    ensures Outcome(old(SceneOf(input)), out, st)
    ensures CvesOf(old(SceneOf(input))).heap.Keys == old(Backings(CveLists(input)))
    ensures CwesOf(old(SceneOf(input))).heap.Keys == old(Backings(CweLists(input)))
  {
    hide *;
    ghost var z := SceneOf(input);
    Begins(input);
    var index, order, merged;
    ghost var p;
    index, order, merged, p := Gather(input, z);
    var corroborated;
    out, corroborated := InOrder(index, order, input, z, p);
    Ends(input, z, p);
    StandingAt(input, z, |input|, p);
    st := Stats(|input|, |out|, merged, corroborated);
    OutcomeHolds(z, out, st);
  }

  lemma OutcomeHolds(z: Scene, out: seq<FindingRecord>, st: Stats)
    requires |z.vals| == |z.cves| == |z.cwes| && |out| == |FoldIn([], z.vals)|
    requires Mirrors(Pass(z.h, Ids(z.vals), z.cves).heap) && Mirrors(Pass(z.g, Ids(z.vals), z.cwes).heap)
    requires forall k :: 0 <= k < |out| ==>
               var f := FoldIn([], z.vals)[k];
               out[k].Value() == f.(cve := Left(Pass(z.h, Ids(z.vals), z.cves), f.id), cwe := Left(Pass(z.g, Ids(z.vals), z.cwes), f.id))
    requires st.input == |z.vals| && st.output == |out| && st.input == st.output + st.merged
    requires st.corroborated == |Filter(Corroborated, FoldIn([], z.vals))|
    ensures Outcome(z, out, st)
    ensures CvesOf(z) == Pass(z.h, Ids(z.vals), z.cves) && CwesOf(z) == Pass(z.g, Ids(z.vals), z.cwes)
  {
    hide FoldIn, Pass, Ids, Filter, Left, FindingRecord.Value;
  }

  /** Lists that share an array fill it. */
  ghost predicate Filled(z: Scene) { SharersFill(z.cves) && SharersFill(z.cwes) }

  /** No group of one loses its order. */
  ghost predicate InOrderStill(z: Scene)
    requires |z.vals| == |z.cves| == |z.cwes|
  {
    OrderKept(z.h, Ids(z.vals), z.cves) && OrderKept(z.g, Ids(z.vals), z.cwes)
  }

  /** `Merge`. Whatever arrays the callers' lists share, the outcome is what a pass over each column says. When those
      that share an array fill it, as they do if none share one, it is the fold of the values exactly if no group of
      one loses its order, and each caller's list is as `AfterPass` says. */
  method Merge(input: seq<FindingRecord>) returns (out: seq<FindingRecord>, st: Stats)
    requires RolesApart(input)
    modifies Backings(CveLists(input)), Backings(CweLists(input))
    ensures forall k :: 0 <= k < |out| ==> fresh(out[k]) && fresh(out[k].head.tools.backing) && fresh(out[k].head.evidence.backing)
    ensures Outcome(old(SceneOf(input)), out, st)
    ensures var z := old(SceneOf(input)); Filled(z) ==> (Values(out) == FoldIn([], old(Values(input))) <==> InOrderStill(z))
    ensures var z := old(SceneOf(input)); SharersFill(z.cves) ==> forall q :: 0 <= q < |input| ==> input[q].head.cve.View() == CveAfter(z, q)
    ensures var z := old(SceneOf(input)); SharersFill(z.cwes) ==> forall q :: 0 <= q < |input| ==> input[q].head.cwe.View() == CweAfter(z, q)
  {
    hide *;
    ghost var z := SceneOf(input);
    SceneMeans(input);
    out, st := Correlated(input);
    FoldedValues(z, out, st);
    CvesSeen(z, out, st);
    CwesSeen(z, out, st);
  }

  ghost function CveAfter(z: Scene, q: nat): seq<string>
    requires q < |z.vals| == |z.cves|
  {
    AfterPass(z.h, Ids(z.vals), z.cves, q)
  }

  ghost function CweAfter(z: Scene, q: nat): seq<string>
    requires q < |z.vals| == |z.cwes|
  {
    AfterPass(z.g, Ids(z.vals), z.cwes, q)
  }

  lemma SceneMeans(input: seq<FindingRecord>)
    ensures var z := SceneOf(input);
            && z.vals == Values(input) && z.cves == CveLists(input) && z.cwes == CweLists(input)
            && |z.vals| == |z.cves| == |z.cwes| == |input|
            && Listed(z.vals, z.h, z.g, z.cves, z.cwes) && Covers(z.h, z.cves) && Covers(z.g, z.cwes)
            && z.h == Snapshot(z.cves) && z.g == Snapshot(z.cwes) && z.h.Keys == Backings(z.cves) && z.g.Keys == Backings(z.cwes)
            && (forall q :: 0 <= q < |input| ==> z.cves[q] == input[q].head.cve && z.cwes[q] == input[q].head.cwe)
            && |Ids(z.vals)| == |input| && forall q :: 0 <= q < |input| ==> Ids(z.vals)[q] == input[q].head.plain.id
  {
    hide Snapshot, Covers, Listed;
    forall q | 0 <= q < |input| ensures Ids(Values(input))[q] == input[q].head.plain.id {
      assert Values(input)[q] == input[q].Value();
    }
    SnapshotCovers(CveLists(input));
    SnapshotCovers(CweLists(input));
    ListsAsRead(input);
  }

  lemma FoldedValues(z: Scene, out: seq<FindingRecord>, st: Stats)
    requires |z.vals| == |z.cves| == |z.cwes| && Outcome(z, out, st)
    requires Listed(z.vals, z.h, z.g, z.cves, z.cwes) && Covers(z.h, z.cves) && Covers(z.g, z.cwes)
    ensures Filled(z) ==> (Values(out) == FoldIn([], z.vals) <==> InOrderStill(z))
  {
    hide Left, FindingRecord.Value, FoldIn, Pass, Ids, Filter, OrderKept, Listed, SharersFill, Covers, Outcome;
    if Filled(z) {
      FoldHoldsExactlyWhen(z.vals, z.h, z.g, z.cves, z.cwes);
      OutcomeAsFolded(z, out, st);
    }
  }

  lemma OutcomeAsFolded(z: Scene, out: seq<FindingRecord>, st: Stats)
    requires |z.vals| == |z.cves| == |z.cwes| && Outcome(z, out, st)
    ensures Values(out) == FoldIn([], z.vals) <==>
              forall k :: 0 <= k < |FoldIn([], z.vals)| ==> AsFolded(z.vals, z.h, z.g, z.cves, z.cwes, k)
  {
    hide Left, FindingRecord.Value, FoldIn, Pass, Ids, Filter;
    forall k | 0 <= k < |out|
      ensures out[k].Value() == FoldIn([], z.vals)[k] <==> AsFolded(z.vals, z.h, z.g, z.cves, z.cwes, k) {
    }
  }

  lemma CvesSeen(z: Scene, out: seq<FindingRecord>, st: Stats)
    requires |z.vals| == |z.cves| == |z.cwes| && Outcome(z, out, st) && Covers(z.h, z.cves) && CvesOf(z).heap.Keys == z.h.Keys
    ensures SharersFill(z.cves) ==> forall q :: 0 <= q < |z.cves| ==> z.cves[q].View() == CveAfter(z, q)
  {
    hide Left, FindingRecord.Value, FoldIn, Pass, Ids, Filter, SharersFill, AfterPass, Covers;
    CallersSee(z.vals, z.cves, z.h, CvesOf(z));
  }

  lemma CwesSeen(z: Scene, out: seq<FindingRecord>, st: Stats)
    requires |z.vals| == |z.cves| == |z.cwes| && Outcome(z, out, st) && Covers(z.g, z.cwes) && CwesOf(z).heap.Keys == z.g.Keys
    ensures SharersFill(z.cwes) ==> forall q :: 0 <= q < |z.cwes| ==> z.cwes[q].View() == CweAfter(z, q)
  {
    hide Left, FindingRecord.Value, FoldIn, Pass, Ids, Filter, SharersFill, AfterPass, Covers;
    CallersSee(z.vals, z.cwes, z.g, CwesOf(z));
  }

  lemma CallersSee(vals: seq<Finding>, lists: seq<Slice<string>>, h: Heap, c: Column)
    requires |vals| == |lists| && c == Pass(h, Ids(vals), lists) && Mirrors(c.heap) && c.heap.Keys == h.Keys && Covers(h, lists)
    ensures SharersFill(lists) ==>
              forall q :: 0 <= q < |lists| ==> lists[q].View() == AfterPass(h, Ids(vals), lists, q)
  {
    if SharersFill(lists) {
      forall q | 0 <= q < |lists| ensures lists[q].View() == AfterPass(h, Ids(vals), lists, q) {
        CallersAreLeftWith(h, Ids(vals), lists, q);
        hide Pass, SharersFill, Ids, AfterPass;
        assert lists[q].backing in c.heap;
      }
    }
  }

  lemma SnapshotCovers(lists: seq<Slice<string>>)
    ensures Covers(Snapshot(lists), lists) && Snapshot(lists).Keys == Backings(lists)
  {
  }

  lemma SnapshotShows(lists: seq<Slice<string>>)
    ensures forall q :: 0 <= q < |lists| ==> Shown(Snapshot(lists), lists[q]) == lists[q].View()
  {
    hide Snapshot;
    forall q | 0 <= q < |lists| ensures Shown(Snapshot(lists), lists[q]) == lists[q].View() {
      assert lists[q].backing in Snapshot(lists);
    }
  }

  lemma ListsAsRead(input: seq<FindingRecord>)
    ensures Listed(Values(input), Snapshot(CveLists(input)), Snapshot(CweLists(input)), CveLists(input), CweLists(input))
    ensures forall q :: 0 <= q < |input| ==> CveLists(input)[q] == input[q].head.cve && CweLists(input)[q] == input[q].head.cwe
    ensures |CveLists(input)| == |CweLists(input)| == |Values(input)| == |Ids(Values(input))| == |input|
  {
    hide Snapshot, Shown;
    SnapshotShows(CveLists(input));
    SnapshotShows(CweLists(input));
  }

  ghost function Heads(rs: seq<FindingRecord>): seq<FindingHead>
    reads rs
  {
    seq(|rs|, k requires 0 <= k < |rs| reads rs => rs[k].head)
  }

  ghost function SceneOf(input: seq<FindingRecord>): Scene
    reads input, Objects(input), Backings(CveLists(input)), Backings(CweLists(input))
  {
    Scene(Values(input), Heads(input), CveLists(input), CweLists(input),
          Snapshot(CveLists(input)), Snapshot(CweLists(input)), Objects(input))
  }

  lemma Begins(input: seq<FindingRecord>)
    requires RolesApart(input)
    ensures var z := SceneOf(input);
            && Set(input, z) && Sound(input, z, 0, Progress([], Column(z.h, map[]), Column(z.g, map[]), [], []))
            && z == Scene(Values(input), Heads(input), CveLists(input), CweLists(input),
                          Snapshot(CveLists(input)), Snapshot(CweLists(input)), Objects(input))
            && z.h.Keys == Backings(CveLists(input)) && z.g.Keys == Backings(CweLists(input))
  {
    hide FindingRecord.Value, Set, Sound, Objects, Values, CveLists, CweLists, Heads, Snapshot;
    SetUp(input);
    NothingSeen(input);
  }

  lemma NothingSeen(input: seq<FindingRecord>)
    ensures var z := SceneOf(input); Sound(input, z, 0, Progress([], Column(z.h, map[]), Column(z.g, map[]), [], []))
  {
    hide FindingRecord.Value, Objects, Values, CveLists, CweLists, Snapshot, Reached, Stands;
    var z := SceneOf(input);
    ReachedNothing(z.vals, z.cves, z.cwes, z.h, z.g);
  }

  lemma SetUp(input: seq<FindingRecord>)
    requires RolesApart(input)
    ensures Set(input, SceneOf(input))
  {
    hide FindingRecord.Value, FindingRecord.Repr, Values, Objects, Snapshot, RolesOf, CveLists, CweLists, Backings;
    InsideObjects(input);
    CvesInside(input);
    CwesInside(input);
    HeapsApart(input);
    EachApart(input);
  }

  lemma EachApart(input: seq<FindingRecord>)
    requires RolesApart(input)
    ensures forall k :: 0 <= k < |input| ==> RolesOf(input[k].head, input[k].head)
  {
  }

  lemma InsideObjects(input: seq<FindingRecord>)
    ensures forall k :: 0 <= k < |input| ==> input[k].Repr() <= Objects(input)
  {
    hide FindingRecord.Repr;
  }

  lemma CvesInside(input: seq<FindingRecord>)
    ensures forall a :: a in Backings(CveLists(input)) ==> a in Objects(input)
    ensures forall k :: 0 <= k < |input| ==> input[k].head.cve.backing in Backings(CveLists(input))
  {
    var lists := CveLists(input);
    forall k | 0 <= k < |input| ensures lists[k].backing in Backings(lists) && lists[k].backing in Objects(input) {
      assert lists[k].backing in input[k].Repr();
      InsideObjects(input);
    }
  }

  lemma CwesInside(input: seq<FindingRecord>)
    ensures forall a :: a in Backings(CweLists(input)) ==> a in Objects(input)
    ensures forall k :: 0 <= k < |input| ==> input[k].head.cwe.backing in Backings(CweLists(input))
  {
    var lists := CweLists(input);
    forall k | 0 <= k < |input| ensures lists[k].backing in Backings(lists) && lists[k].backing in Objects(input) {
      assert lists[k].backing in input[k].Repr();
      InsideObjects(input);
    }
  }

  lemma HeapsApart(input: seq<FindingRecord>)
    requires RolesApart(input)
    ensures forall a :: a in Backings(CveLists(input)) ==> a !in Backings(CweLists(input))
    ensures forall k :: 0 <= k < |input| ==>
              input[k].head.tools.backing !in Backings(CveLists(input)) && input[k].head.tools.backing !in Backings(CweLists(input))
  {
    forall a | a in Backings(CveLists(input)) ensures a !in Backings(CweLists(input)) {
      var i :| 0 <= i < |input| && input[i].head.cve.backing == a;
      assert forall j :: 0 <= j < |input| ==> RolesOf(input[i].head, input[j].head);
    }
    forall k | 0 <= k < |input|
      ensures input[k].head.tools.backing !in Backings(CveLists(input)) && input[k].head.tools.backing !in Backings(CweLists(input)) {
      assert forall i :: 0 <= i < |input| ==> RolesOf(input[k].head, input[i].head);
    }
  }

  lemma Ends(input: seq<FindingRecord>, z: Scene, p: Progress)
    requires Sound(input, z, |input|, p)
    ensures Mirrors(p.cve.heap) && Mirrors(p.cwe.heap) && |p.recs| == |p.acc|
    ensures p.acc == FoldIn([], z.vals)
    ensures p.cve == Pass(z.h, Ids(z.vals), z.cves) && p.cwe == Pass(z.g, Ids(z.vals), z.cwes)
    ensures forall k :: 0 <= k < |p.recs| ==>
              && p.recs[k].Value() == p.acc[k].(cve := Left(p.cve, p.acc[k].id), cwe := Left(p.cwe, p.acc[k].id))
              && p.recs[k].head.tools.View() == p.acc[k].tools
              && p.recs[k] in p.owns[k] && p.recs[k].head.tools.backing in p.owns[k] && p.recs[k].head.evidence.backing in p.owns[k]
  {
    hide FoldIn, Pass, DistinctIds;
    assert z.vals[..|input|] == z.vals && Ids(z.vals)[..|input|] == Ids(z.vals);
    assert z.cves[..|input|] == z.cves && z.cwes[..|input|] == z.cwes;
    forall k | 0 <= k < |p.recs| {
      StandsFor(p.recs[k], p.acc[k], p.cve, p.cwe, p.owns[k]);
    }
  }
}
