/** `mergeInto` of internal/store/mem.go, the de-duplication both backends share. */
module MergingStore {
  import opened Text
  import opened Ordering
  import opened Findings
  import opened Slices
  import opened FindingRecords
  import opened Correlate

  /** Records over arrays of their own: changing one shows in no other. */
  ghost predicate Separate(rs: seq<FindingRecord>)
    reads rs
  {
    && (forall i :: 0 <= i < |rs| ==> rs[i].head.Tidy())
    && (forall i, j :: 0 <= i < j < |rs| ==> rs[i].Repr() !! rs[j].Repr())
  }

  /** Everything reachable from the records lies in `owned`. */
  ghost predicate Within(rs: seq<FindingRecord>, owned: set<object>)
    reads rs
  {
    forall i :: 0 <= i < |rs| ==> rs[i].Repr() <= owned
  }

  ghost predicate Beyond(rs: seq<FindingRecord>, owned: set<object>)
    reads rs
  {
    forall i :: 0 <= i < |rs| ==> rs[i].Repr() !! owned
  }

  ghost predicate Shows(rs: seq<FindingRecord>, fs: seq<Finding>)
    reads rs, Objects(rs)
  {
    |rs| == |fs| && forall i :: 0 <= i < |rs| ==> rs[i].Value() == fs[i]
  }

  /** `cur.Merge(f)` when the two share nothing. */
  method MergeApart(cur: FindingRecord, f: FindingRecord)
    requires cur.head.Tidy() && cur.Repr() !! f.Repr()
    modifies cur.Repr()
    ensures cur.Value() == MergeFinding(old(cur.Value()), old(f.Value()))
    ensures cur.head.Tidy() && forall o :: o in cur.Repr() ==> o in old(cur.Repr()) || fresh(o)
  {
    hide MergeFinding, MergeUnique, AppendNew, ArrayAfter;
    cur.Merge(f);
  }

  /** The same for the record at place `j` of a list. */
  method MergeAt(out: seq<FindingRecord>, ghost j: nat, cur: FindingRecord, f: FindingRecord, ghost acc: seq<Finding>, ghost owned: set<object>)
    returns (ghost owned': set<object>)
    requires j < |out| && cur == out[j] && Separate(out) && Within(out, owned)
    requires Shows(out, acc) && f.Repr() !! owned
    modifies owned
    ensures Separate(out) && Within(out, owned') && owned <= owned' && fresh(owned' - owned)
    ensures Shows(out, acc[j := MergeFinding(acc[j], old(f.Value()))])
  {
    hide MergeFinding;
    ghost var reprs := seq(|out|, k requires 0 <= k < |out| reads out => out[k].Repr());
    assert cur.Repr() !! f.Repr() by { assert cur.Repr() <= owned; }
    MergeApart(cur, f);
    owned' := owned + cur.Repr();
    forall k | 0 <= k < |out| && k != j
      ensures out[k].head == old(out[k].head) && out[k].Repr() == reprs[k] && out[k].Value() == old(out[k].Value()) {
      assert reprs[k] !! reprs[j];
    }
    StillSeparate(out, j, reprs, owned, owned');
  }

  /** The incoming records do not notice. */
  method MergeFound(out: seq<FindingRecord>, ghost j: nat, cur: FindingRecord, incoming: seq<FindingRecord>, i: nat,
                    ghost acc: seq<Finding>, ghost vals: seq<Finding>, ghost owned: set<object>)
    returns (ghost owned': set<object>)
    requires j < |out| && cur == out[j] && Separate(out) && Within(out, owned)
    requires Shows(out, acc) && i < |incoming| && Beyond(incoming, owned) && Shows(incoming, vals)
    modifies owned
    ensures Separate(out) && Within(out, owned') && owned <= owned' && fresh(owned' - owned)
    ensures Shows(out, acc[j := MergeFinding(acc[j], vals[i])])
    ensures Beyond(incoming, owned') && Shows(incoming, vals)
  {
    hide MergeFinding, Separate, Within;
    owned' := MergeAt(out, j, cur, incoming[i], acc, owned);
    forall k | 0 <= k < |incoming|
      ensures incoming[k].Repr() == old(incoming[k].Repr()) && incoming[k].Value() == vals[k] {
      assert old(incoming[k].Repr()) !! owned;
    }
  }

  lemma StillSeparate(out: seq<FindingRecord>, j: nat, reprs: seq<set<object>>, owned: set<object>, owned': set<object>)
    requires j < |out| == |reprs| && owned <= owned'
    requires forall k :: 0 <= k < |out| ==> reprs[k] <= owned && out[k].head.Tidy()
    requires forall i, k :: 0 <= i < k < |out| ==> reprs[i] !! reprs[k]
    requires forall k :: 0 <= k < |out| && k != j ==> out[k].Repr() == reprs[k]
    requires out[j].Repr() <= owned' && forall o :: o in out[j].Repr() && o in owned ==> o in reprs[j]
    ensures Separate(out) && Within(out, owned')
  {
    hide FindingRecord.Repr, FindingHead.Tidy;
  }

  /** Each identity leads to its last entry. */
  ghost predicate Indexed(index: map<string, FindingRecord>, out: seq<FindingRecord>, acc: seq<Finding>) {
    && |out| == |acc|
    && forall id :: if IndexOf(acc, id) < |acc| then id in index && index[id] == out[IndexOf(acc, id)] else id !in index
  }

  lemma IndexOfSnoc(acc: seq<Finding>, f: Finding, id: string)
    ensures IndexOf(acc + [f], id) == if f.id == id then |acc|
                                      else if IndexOf(acc, id) < |acc| then IndexOf(acc, id) else |acc| + 1
  {
    var i, j := IndexOf(acc, id), IndexOf(acc + [f], id);
    if f.id != id && i < |acc| {
      assert (acc + [f])[i].id == id;
    }
    if f.id == id {
      assert (acc + [f])[|acc|].id == id;
    }
  }

  lemma IndexOfSameIds(a: seq<Finding>, b: seq<Finding>, id: string)
    requires |a| == |b| && forall k :: 0 <= k < |a| ==> a[k].id == b[k].id
    ensures IndexOf(a, id) == IndexOf(b, id)
  {
    var i, j := IndexOf(a, id), IndexOf(b, id);
    if i < |a| && j < |a| {
      assert b[i].id == id && a[j].id == id;
    }
  }

  lemma IndexedSnoc(index: map<string, FindingRecord>, out: seq<FindingRecord>, acc: seq<Finding>, r: FindingRecord, f: Finding)
    requires Indexed(index, out, acc)
    ensures Indexed(index[f.id := r], out + [r], acc + [f])
  {
    hide IndexOf;
    forall id ensures var i := IndexOf(acc + [f], id); i <= |acc| + 1 {
      IndexOfSnoc(acc, f, id);
    }
    assert forall id :: IndexOf(acc + [f], id) == if f.id == id then |acc|
             else if IndexOf(acc, id) < |acc| then IndexOf(acc, id) else |acc| + 1 by {
      forall id ensures IndexOf(acc + [f], id) == if f.id == id then |acc|
             else if IndexOf(acc, id) < |acc| then IndexOf(acc, id) else |acc| + 1 { IndexOfSnoc(acc, f, id); }
    }
  }

  method IndexRecords(existing: seq<FindingRecord>, ghost had: seq<Finding>,
                      ghost incoming: seq<FindingRecord>, ghost vals: seq<Finding>)
    returns (index: map<string, FindingRecord>)
    requires Shows(existing, had) && Shows(incoming, vals)
    ensures Indexed(index, existing, had) && Shows(existing, had) && Shows(incoming, vals)
  {
    hide IndexOf, Indexed;
    index := map[];
    assert Indexed(index, existing[..0], had[..0]) by { NothingIndexed(); assert existing[..0] == [] && had[..0] == []; }
    for i := 0 to |existing|
      invariant Indexed(index, existing[..i], had[..i])
    {
      var f := existing[i];
      assert f.head.plain.id == f.Value().id == had[i].id;
      TakeNext(existing, i);
      TakeNext(had, i);
      IndexedSnoc(index, existing[..i], had[..i], f, had[i]);
      index := index[f.head.plain.id := f];
    }
    assert existing[..|existing|] == existing && had[..|existing|] == had;
  }

  lemma NothingIndexed()
    ensures Indexed(map[], [], [])
  {
  }

  lemma StillIndexed(index: map<string, FindingRecord>, out: seq<FindingRecord>, acc: seq<Finding>, j: nat, f: Finding)
    requires Indexed(index, out, acc) && j < |acc| && f.id == acc[j].id
    ensures Indexed(index, out, acc[j := f])
  {
    hide IndexOf;
    forall id ensures IndexOf(acc[j := f], id) == IndexOf(acc, id) {
      IndexOfSameIds(acc, acc[j := f], id);
    }
  }

  lemma FoldInNothing(acc: seq<Finding>)
    ensures FoldIn(acc, []) == acc
  {
  }

  lemma ValuesShown(rs: seq<FindingRecord>, fs: seq<Finding>)
    ensures Shows(rs, fs) <==> Values(rs) == fs
  {
  }

  /** A deep copy goes to the end of the list. */
  method AppendCopy(out: seq<FindingRecord>, f: FindingRecord, ghost acc: seq<Finding>, ghost owned: set<object>,
                    ghost incoming: seq<FindingRecord>, ghost vals: seq<Finding>)
    returns (r: seq<FindingRecord>, ghost owned': set<object>)
    requires Separate(out) && Within(out, owned) && Shows(out, acc)
    requires Beyond(incoming, owned) && Shows(incoming, vals)
    ensures Beyond(incoming, owned') && Shows(incoming, vals)
    ensures Separate(r) && Within(r, owned') && owned <= owned' && fresh(owned' - owned)
    ensures Shows(r, acc + [f.Value()])
    ensures |r| == |out| + 1 && r[..|out|] == out && fresh(r[|out|])
  {
    hide FindingRecord.Value;
    var cp := f.Clone();
    r, owned' := out + [cp], owned + cp.Repr();
  }

  /** Appends findings, folding each into the last entry of its identity if there is one. The incoming records
      may share arrays among themselves; they are only read, and nothing of theirs is kept. */
  method MergeInto(existing: seq<FindingRecord>, incoming: seq<FindingRecord>, ghost owned: set<object>)
    returns (out: seq<FindingRecord>, ghost owned': set<object>)
    requires Separate(existing) && Within(existing, owned) && Beyond(incoming, owned)
    modifies owned
    ensures Separate(out) && Within(out, owned') && owned <= owned' && fresh(owned' - owned)
    ensures Values(out) == FoldIn(old(Values(existing)), old(Values(incoming)))
    ensures Values(incoming) == old(Values(incoming)) && Beyond(incoming, owned')
    ensures existing <= out && forall k :: |existing| <= k < |out| ==> fresh(out[k])
  {
    hide MergeFinding, FoldIn, FoldOne, Separate, Within, Indexed, IndexOf, FindingRecord.Value, FindingRecord.Repr, Values;
    ghost var had, vals := Values(existing), Values(incoming);
    ghost var acc := FoldIn(had, []);
    FoldInNothing(had);
    out, owned' := existing, owned;
    ValuesShown(existing, had);
    ValuesShown(incoming, vals);
    var index := IndexRecords(existing, had, incoming, vals);
    assert vals[..0] == [] && acc == had;
    for i := 0 to |incoming|
      invariant Separate(out) && Within(out, owned') && owned <= owned' && fresh(owned' - owned)
      invariant existing <= out && forall k :: |existing| <= k < |out| ==> fresh(out[k])
      invariant Beyond(incoming, owned') && Shows(incoming, vals)
      invariant acc == FoldIn(had, vals[..i]) && Shows(out, acc)
      invariant Indexed(index, out, acc)
    {
      var f := incoming[i];
      TakeNext(vals, i);
      FoldInSnoc(had, vals[..i], vals[i]);
      assert f.head.plain.id == vals[i].id && f.Value() == vals[i] by { ShownAt(incoming, vals, i); }
      ghost var j := IndexOf(acc, vals[i].id);
      FoundOrNot(acc, vals[i], index, out);
      if f.head.plain.id in index {
        var cur := index[f.head.plain.id];
        assert cur == out[j];
        owned' := MergeFound(out, j, cur, incoming, i, acc, vals, owned');
        StillIndexed(index, out, acc, j, MergeFinding(acc[j], vals[i]));
      } else {
        ghost var before := out;
        out, owned' := AppendCopy(out, f, acc, owned', incoming, vals);
        var cp := out[|out| - 1];
        assert out == before + [cp];
        IndexedSnoc(index, before, acc, cp, vals[i]);
        index := index[f.head.plain.id := cp];
      }
      acc := FoldOne(acc, vals[i]);
    }
    assert vals[..|incoming|] == vals;
    ValuesShown(out, acc);
    ValuesShown(incoming, vals);
  }

  lemma ShownAt(rs: seq<FindingRecord>, fs: seq<Finding>, i: nat)
    requires Shows(rs, fs) && i < |rs|
    ensures |fs| == |rs| && rs[i].Value() == fs[i] && rs[i].head.plain.id == fs[i].id
  {
  }

  lemma FoundOrNot(acc: seq<Finding>, f: Finding, index: map<string, FindingRecord>, out: seq<FindingRecord>)
    requires Indexed(index, out, acc)
    ensures var j := IndexOf(acc, f.id);
            if f.id in index then j < |acc| == |out| && index[f.id] == out[j] && acc[j].id == f.id
                                  && FoldOne(acc, f) == acc[j := MergeFinding(acc[j], f)]
            else FoldOne(acc, f) == acc + [f]
  {
    hide MergeFinding;
  }
}
