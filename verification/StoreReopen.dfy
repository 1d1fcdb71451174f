/** Reopening a file store: every record comes back, and the lists come back in the same order exactly when
    records were created in (creation time, identifier) order. */
module StoreReopen {
  import opened Text
  import opened Ordering
  import opened Findings
  import opened Records
  import opened Store
  import opened StoreProofs

  /** A directory holds exactly one readable document for each record. */
  ghost predicate Holds<T(!new)>(idOf: T -> string, pick: Document -> Option<T>, recs: map<string, T>, dir: Directory) {
    && (forall id :: id in recs ==> idOf(recs[id]) == id)
    && (forall id :: id in recs ==> FileName(id) in dir && pick(dir[FileName(id)]) == Some(recs[id]))
    && (forall name :: name in dir && IsDocumentName(name) ==> exists id :: id in recs && FileName(id) == name)
  }

  ghost predicate Lists<T>(s: seq<string>, m: map<string, T>) {
    NoDuplicates(s) && forall id :: id in s <==> id in m
  }

  function InOrder<T>(recs: map<string, T>, order: seq<string>): (r: seq<T>)
    requires forall id :: id in order ==> id in recs
    ensures |r| == |order| && forall i :: 0 <= i < |order| ==> r[i] == recs[order[i]]
  {
    seq(|order|, i requires 0 <= i < |order| => recs[order[i]])
  }

  lemma DocumentName(id: string)
    ensures IsDocumentName(FileName(id))
  {
  }

  lemma {:induction false} CollectMembers<T(!new)>(idOf: T -> string, pick: Document -> Option<T>, recs: map<string, T>,
                                                 dir: Directory, listing: seq<string>)
    requires Holds(idOf, pick, recs, dir) && NoDuplicates(listing)
    requires forall name :: name in listing ==> name in dir
    ensures var ts := Collect(pick, dir, listing);
            && (forall t :: t in ts ==> idOf(t) in recs && recs[idOf(t)] == t && FileName(idOf(t)) in listing)
            && (forall id :: id in recs && FileName(id) in listing ==> recs[id] in ts)
            && NoDuplicates(ts)
  {
    hide FileName, IsDocumentName;
    if listing != [] {
      var n := |listing| - 1;
      SplitLast(listing);
      var name := listing[n];
      CollectMembers(idOf, pick, recs, dir, listing[..n]);
      assert name in listing && name in dir;
      var rest := Collect(pick, dir, listing[..n]);
      if !IsDocumentName(name) {
        forall x | x in recs && FileName(x) in listing ensures recs[x] in rest {
          DocumentName(x);
        }
        return;
      }
      var id :| id in recs && FileName(id) == name;
      forall t | t in rest ensures t != recs[id] {
        var k :| 0 <= k < n && listing[..n][k] == FileName(idOf(t));
        assert listing[k] != listing[n];
      }
      forall x | x in recs && FileName(x) in listing ensures recs[x] in Collect(pick, dir, listing) {
        if FileName(x) == name {
          FileNameInjective(x, id);
        }
      }
    }
  }

  lemma InOrderMembers<T(!new)>(idOf: T -> string, recs: map<string, T>, order: seq<string>)
    requires Lists(order, recs) && forall id :: id in recs ==> idOf(recs[id]) == id
    ensures NoDuplicates(InOrder(recs, order))
    ensures forall t :: t in InOrder(recs, order) <==> idOf(t) in recs && recs[idOf(t)] == t
    ensures MapSeq(idOf, InOrder(recs, order)) == order
  {
    var r := InOrder(recs, order);
    forall i, j | 0 <= i < j < |r| ensures r[i] != r[j] {
      assert order[i] != order[j];
    }
    forall t | idOf(t) in recs && recs[idOf(t)] == t ensures t in r {
      var k :| 0 <= k < |order| && order[k] == idOf(t);
      assert r[k] == t;
    }
  }

  lemma {:induction false} IndexByMembers<T(!new)>(idOf: T -> string, ts: seq<T>, recs: map<string, T>)
    requires forall t :: t in ts ==> idOf(t) in recs && recs[idOf(t)] == t
    ensures forall id :: id in IndexBy(idOf, ts) <==> exists t :: t in ts && idOf(t) == id
    ensures forall id :: id in IndexBy(idOf, ts) ==> id in recs && IndexBy(idOf, ts)[id] == recs[id]
  {
    if ts != [] {
      SplitLast(ts);
      IndexByMembers(idOf, ts[..|ts| - 1], recs);
    }
  }

  lemma SameRecords<T(!new)>(idOf: T -> string, pick: Document -> Option<T>, recs: map<string, T>,
                             order: seq<string>, dir: Directory, listing: seq<string>)
    requires Holds(idOf, pick, recs, dir) && Lists(order, recs) && Lists(listing, dir)
    ensures multiset(Collect(pick, dir, listing)) == multiset(InOrder(recs, order))
  {
    hide FileName;
    CollectMembers(idOf, pick, recs, dir, listing);
    InOrderMembers(idOf, recs, order);
    var ts, r := Collect(pick, dir, listing), InOrder(recs, order);
    forall t ensures t in ts <==> t in r {
      if t in r {
        assert FileName(idOf(t)) in dir;
        assert recs[idOf(t)] in ts;
      }
    }
    SameSetSameMultiset(ts, r);
  }

  /** The reloaded index is the old one, and the reloaded order is the old one exactly when the old order
      was sorted. */
  lemma ReloadOne<T(!new)>(idOf: T -> string, pick: Document -> Option<T>, leq: (T, T) -> bool, recs: map<string, T>,
                           order: seq<string>, dir: Directory, listing: seq<string>)
    requires TotalPreorder(leq) && forall x, y :: leq(x, y) && leq(y, x) ==> idOf(x) == idOf(y)
    requires Holds(idOf, pick, recs, dir) && Lists(order, recs) && Lists(listing, dir)
    ensures var ts := SortBy(leq, Collect(pick, dir, listing));
            && IndexBy(idOf, ts) == recs
            && (MapSeq(idOf, ts) == order <==> Sorted(leq, InOrder(recs, order)))
            && ts == SortBy(leq, InOrder(recs, order)) && Lists(MapSeq(idOf, ts), recs)
  {
    hide Collect, SortBy, FileName, IndexBy;
    var ts0 := Collect(pick, dir, listing);
    var r := InOrder(recs, order);
    var ts := SortBy(leq, ts0);
    SameRecords(idOf, pick, recs, order, dir, listing);
    InOrderMembers(idOf, recs, order);
    SortBySorted(leq, ts0);
    SameElements(ts, r);
    assert Antisymmetric(leq, r);
    SortOfPermutation(leq, r, ts0);
    if Sorted(leq, r) {
      SortOfSorted(leq, r);
    }
    if MapSeq(idOf, ts) == order {
      forall i | 0 <= i < |ts| ensures ts[i] == r[i] {
        assert ts[i] in r && idOf(ts[i]) == order[i];
      }
      assert ts == r;
    }
    MapPermutes(idOf, r, ts);
    NoDuplicatesPermutes(order, MapSeq(idOf, ts));
    SameElements(order, MapSeq(idOf, ts));
    IndexByMembers(idOf, ts, recs);
    forall id | id in recs ensures id in IndexBy(idOf, ts) {
      assert recs[id] in r && recs[id] in ts && idOf(recs[id]) == id;
    }
  }

  lemma JobBeforeOrder()
    ensures TotalPreorder(JobBefore)
    ensures forall x, y :: JobBefore(x, y) && JobBefore(y, x) ==> JobIdOf(x) == JobIdOf(y)
  {
    hide StrLeq;
    StrOrder();
  }

  lemma DefinitionBeforeOrder()
    ensures TotalPreorder(DefinitionBefore)
    ensures forall x, y :: DefinitionBefore(x, y) && DefinitionBefore(y, x) ==> DefinitionIdOf(x) == DefinitionIdOf(y)
  {
    hide StrLeq;
    StrOrder();
  }

  /** Jobs and definitions stand in the order of their creation times, identifiers breaking ties. */
  ghost predicate CreatedInOrder(f: FileState)
    requires Coherent(f)
  {
    Sorted(JobBefore, InOrder(f.jobs, f.order)) && Sorted(DefinitionBefore, InOrder(f.defs, f.defOrder))
  }

  /** Whatever order the directories are listed in: every job and definition survives reopening, and the
      whole store, lists and baselines included, is restored exactly when records were created in order. */
  lemma ReopenRestores(f: FileState, jobNames: seq<string>, definitionNames: seq<string>)
    requires Coherent(f)
    requires Lists(jobNames, f.disk.jobs) && Lists(definitionNames, f.disk.definitions)
    ensures var g := Reopen(f.disk, jobNames, definitionNames);
            && g.jobs == f.jobs && g.defs == f.defs && g.disk == f.disk
            && (g == f <==> CreatedInOrder(f))
  {
    hide SortBy, Collect, SafeId, FileName, Sorted, IndexBy, JobBefore, DefinitionBefore;
    JobBeforeOrder();
    DefinitionBeforeOrder();
    JobsHeld(f);
    ReloadOne(JobIdOf, PickJob, JobBefore, f.jobs, f.order, f.disk.jobs, jobNames);
    ReloadOne(DefinitionIdOf, PickDefinition, DefinitionBefore, f.defs, f.defOrder, f.disk.definitions, definitionNames);
  }

  lemma JobsHeld(f: FileState)
    requires Coherent(f)
    ensures Holds(JobIdOf, PickJob, f.jobs, f.disk.jobs) && Lists(f.order, f.jobs)
    ensures Holds(DefinitionIdOf, PickDefinition, f.defs, f.disk.definitions) && Lists(f.defOrder, f.defs)
  {
    hide FileName, SafeId;
  }
}
