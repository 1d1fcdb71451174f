/** internal/finding/finding.go on the heap: a finding held by pointer, with its lists as slices. A struct
    assignment copies slice headers only, so two records may share the arrays behind them. */
module FindingRecords {
  import opened Text
  import opened Ordering
  import opened Findings
  import opened Slices

  // ----- merging one list into another in place -----

  method SortInPlace(s: Slice<string>)
    modifies s.backing
    ensures s.View() == SortStrings(old(s.View()))
    ensures s.backing[s.Len()..] == old(s.backing[..])[s.Len()..]
  {
    hide SortStrings;
    ghost var was := s.backing[..];
    SortKeepsLength(s.View());
    var sorted := SortStrings(s.View());
    for i := 0 to s.Len()
      invariant forall k :: 0 <= k < i ==> s.backing[k] == sorted[k]
      invariant forall k :: i <= k < s.backing.Length ==> s.backing[k] == was[k]
    {
      s.backing[i] := sorted[i];
    }
  }

  lemma SortKeepsLength(s: seq<string>)
    ensures |SortStrings(s)| == |s|
  {
  }

  /** What the array behind a list of `n` elements holds once `b` has been merged into it. */
  function ArrayAfter(arr: seq<string>, n: nat, b: seq<string>): (r: seq<string>)
    requires n <= |arr|
    ensures |r| == |arr|
  {
    var all := AppendNew(arr[..n], b);
    if |all| <= |arr| then SortStrings(all) + arr[|all|..] else all[..|arr|]
  }

  /** Where the elements `all` gathered so far lie: still in the array that held `arr`, or in a new one, which
      leaves the old one filled up. */
  ghost predicate Laid(arr: seq<string>, all: seq<string>, r: Slice<string>, a: Slice<string>)
    reads a.backing, r.backing
  {
    && r.View() == all && r.len == |all| && a.backing.Length == |arr|
    && if |all| <= |arr| then r.backing == a.backing && a.backing[|all|..] == arr[|all|..]
       else r.backing != a.backing && a.backing[..] == all[..|arr|]
  }

  method AppendNext(a: Slice<string>, r: Slice<string>, x: string, ghost arr: seq<string>, ghost all: seq<string>)
    returns (q: Slice<string>)
    requires Laid(arr, all, r, a)
    modifies a.backing, r.backing
    ensures Laid(arr, all + [x], q, a)
    ensures q.backing == r.backing || fresh(q.backing)
  {
    ghost var was := a.backing[..];
    q := Append(r, x);
    if |all| < |arr| {
      assert a.backing[|all| + 1..] == was[|all| + 1..] == arr[|all|..][1..] == arr[|all| + 1..];
    } else if |all| == |arr| {
      assert a.backing[..] == all == (all + [x])[..|arr|];
    } else {
      assert all[..|arr|] == (all + [x])[..|arr|];
    }
  }

  /** The elements of `b` not reached yet are as they were, even if `b` lies in the array being appended to. */
  lemma NotYetOverwritten(a: Slice<string>, b: Slice<string>, r: Slice<string>, arr: seq<string>, all: seq<string>, bs: seq<string>, i: nat)
    requires Laid(arr, all, r, a) && i < |bs| == b.Len()
    requires a.Len() <= |arr| && arr[..a.Len()] <= all
    requires if b.backing == a.backing then bs == arr[..b.Len()] && (|all| <= a.Len() || |all| <= i) else b.View() == bs
    ensures b.backing[i] == bs[i]
  {
    if b.backing == a.backing {
      if i < |all| {
        assert all[i] == arr[..a.Len()][i];
        assert a.backing[i] == r.View()[i];
      } else {
        assert a.backing[|all|..][i - |all|] == arr[|all|..][i - |all|];
      }
    } else {
      assert b.View()[i] == bs[i];
    }
  }

  /** `mergeUnique`, for any two slices: they may share an array, and other slices may look into it. */
  method MergeUniqueInPlace(a: Slice<string>, b: Slice<string>) returns (r: Slice<string>)
    modifies a.backing
    ensures r.View() == MergeUnique(old(a.View()), old(b.View()))
    ensures a.backing[..] == ArrayAfter(old(a.backing[..]), a.Len(), old(b.View()))
    ensures var all := AppendNew(old(a.View()), old(b.View()));
            if |all| <= a.backing.Length then r.backing == a.backing && r.len == |all| else fresh(r.backing)
  {
    hide SortStrings, AppendNew;
    var newOnes;
    r, newOnes := AppendMissing(a, b);
    ghost var all := AppendNew(old(a.View()), old(b.View()));
    SortInPlace(r);
    SortKeepsLength(all);
  }

  /** Appends the elements of `b` not yet listed, and says whether there was one. */
  method AppendMissing(a: Slice<string>, b: Slice<string>) returns (r: Slice<string>, newOnes: bool)
    modifies a.backing
    ensures r.View() == AppendNew(old(a.View()), old(b.View()))
    ensures newOnes <==> exists t :: t in old(b.View()) && t !in old(a.View())
    ensures var all := AppendNew(old(a.View()), old(b.View()));
            if |all| <= a.backing.Length
            then r.backing == a.backing && r.len == |all| && a.backing[..] == all + old(a.backing[..])[|all|..]
            else fresh(r.backing) && a.backing[..] == all[..a.backing.Length]
  {
    hide AppendNew, Laid;
    r, newOnes := Slice(a.backing, a.Len()), false;
    ghost var arr, bs := a.backing[..], b.View();
    ghost var was := a.View();
    ghost var all := AppendNew(was, bs[..0]);
    assert all == was by { assert bs[..0] == []; NothingNew(was); }
    assert Laid(arr, all, r, a) by { StartsLaid(a, r); }
    for i := 0 to b.Len()
      invariant all == AppendNew(was, bs[..i]) && was <= all
      invariant Laid(arr, all, r, a) && (r.backing == a.backing || fresh(r.backing))
      invariant newOnes <==> exists t :: t in bs[..i] && t !in was
      invariant if b.backing == a.backing then |all| <= a.Len() || |all| <= i else b.View() == bs
    {
      TakeNext(bs, i);
      AppendNewSnoc(was, bs[..i], bs[i]);
      AppendNewMembers(was, bs[..i]);
      AppendNewMembers(was, bs[..i + 1]);
      NotYetOverwritten(a, b, r, arr, all, bs, i);
      var x := b.backing[i];
      ShowsAll(a, r, arr, all);
      if x !in r.View() {
        NewComesLater(a, b, arr, was, bs, all, i);
        r := AppendNext(a, r, x, arr, all);
        newOnes := true;
      }
      all := AppendNew(was, bs[..i + 1]);
    }
    assert bs[..b.Len()] == bs;
    LaidOut(a, r, arr, all);
  }

  lemma StartsLaid(a: Slice<string>, r: Slice<string>)
    requires r == Slice(a.backing, a.Len())
    ensures Laid(a.backing[..], a.View(), r, a)
  {
  }

  lemma ShowsAll(a: Slice<string>, r: Slice<string>, arr: seq<string>, all: seq<string>)
    requires Laid(arr, all, r, a)
    ensures r.View() == all
  {
  }

  lemma NewComesLater(a: Slice<string>, b: Slice<string>, arr: seq<string>, was: seq<string>, bs: seq<string>, all: seq<string>, i: nat)
    requires a.Len() <= |arr| && was == arr[..a.Len()] && was <= all && i < |bs|
    requires b.backing == a.backing ==> |bs| <= |arr| && bs == arr[..|bs|] && (|all| <= a.Len() || |all| <= i)
    requires bs[i] !in all
    ensures b.backing == a.backing ==> |all| + 1 <= i + 1
  {
    if b.backing == a.backing && i < a.Len() {
      assert was[i] == bs[i];
    }
  }

  lemma LaidOut(a: Slice<string>, r: Slice<string>, arr: seq<string>, all: seq<string>)
    requires Laid(arr, all, r, a)
    ensures r.View() == all
    ensures if |all| <= |arr| then r.backing == a.backing && r.len == |all| && a.backing[..] == all + arr[|all|..]
            else r.backing != a.backing && a.backing[..] == all[..|arr|]
  {
    if |all| <= |arr| {
      assert a.backing[..] == a.backing[..|all|] + a.backing[|all|..];
    }
  }

  lemma NothingNew(a: seq<string>)
    ensures AppendNew(a, []) == a
  {
  }

  lemma AppendNewMembers(a: seq<string>, b: seq<string>)
    ensures forall x :: x in AppendNew(a, b) <==> x in a || x in b
    ensures a <= AppendNew(a, b)
  {
  }

  // ----- the record -----

  /** What a struct assignment copies: the scalar fields, held as a finding whose own lists are not used, and
      one slice header for each list. */
  datatype FindingHead = FindingHead(
    plain: Finding, tools: Slice<string>, cve: Slice<string>, cwe: Slice<string>,
    evidence: Slice<Evidence>, compliance: Slice<Control>)
  {
    ghost function Arrays(): set<object> {
      {tools.backing as object, cve.backing, cwe.backing, evidence.backing, compliance.backing}
    }

    function Read(): Finding
      reads Arrays()
    {
      plain.(tools := tools.View(), cve := cve.View(), cwe := cwe.View(),
             evidence := evidence.View(), compliance := compliance.View())
    }

    /** No array serves two of the lists that merging changes. */
    ghost predicate Tidy() {
      tools.backing != cve.backing && tools.backing != cwe.backing && cve.backing != cwe.backing
    }
  }

  /** The tool, CVE and CWE lists of one finding share no array with those of another kind of the other. */
  ghost predicate KindsApart(f: FindingHead, o: FindingHead) {
    && f.tools.backing != o.cve.backing && f.tools.backing != o.cwe.backing
    && f.cve.backing != o.tools.backing && f.cve.backing != o.cwe.backing
    && f.cwe.backing != o.tools.backing && f.cwe.backing != o.cve.backing
  }

  method NewHead(f: Finding) returns (h: FindingHead)
    ensures h.Read() == f && h.Tidy() && fresh(h.Arrays())
  {
    var tools := Full(f.tools);
    var cve := Full(f.cve);
    var cwe := Full(f.cwe);
    var evidence := Full(f.evidence);
    var compliance := Full(f.compliance);
    h := FindingHead(f, tools, cve, cwe, evidence, compliance);
  }

  class FindingRecord {
    var head: FindingHead

    ghost function Repr(): (r: set<object>)
      reads this
      ensures this in r
    {
      {this as object} + head.Arrays()
    }

    function Value(): Finding
      reads Repr()
    {
      head.Read()
    }

    /** A finding of its own, as decoding or an adapter makes it. */
    constructor (f: Finding)
      ensures Value() == f && head.Tidy() && fresh(Repr())
    {
      var h := NewHead(f);
      head := h;
    }

    /** `cp := *f`: the copy shares every array. */
    constructor Shallow(h: FindingHead)
      ensures head == h
    {
      head := h;
    }

    /** A deep copy: a new record over new arrays. */
    method Clone() returns (c: FindingRecord)
      ensures fresh(c) && fresh(c.Repr()) && c.head.Tidy() && c.Value() == old(Value()) == Value()
    {
      c := new FindingRecord.Shallow(head);
      var tools := CopyOf(head.tools);
      var cve := CopyOf(head.cve);
      var cwe := CopyOf(head.cwe);
      var evidence := CopyOf(head.evidence);
      var compliance := CopyOf(head.compliance);
      c.head := c.head.(tools := tools, cve := cve, cwe := cwe, evidence := evidence, compliance := compliance);
    }

    /** Folds `other` into this record. The two may share arrays, as long as no array serves lists of two kinds. */
    method Merge(other: FindingRecord)
      requires head.Tidy() && KindsApart(head, other.head)
      modifies this, head.tools.backing, head.cve.backing, head.cwe.backing, head.evidence.backing
      ensures Value() == MergeFinding(old(Value()), old(other.Value()))
      ensures head.Tidy() && head.compliance == old(head.compliance)
      ensures old(head.cve.backing)[..] == ArrayAfter(old(head.cve.backing[..]), old(head.cve.Len()), old(other.head.cve.View()))
      ensures old(head.cwe.backing)[..] == ArrayAfter(old(head.cwe.backing[..]), old(head.cwe.Len()), old(other.head.cwe.View()))
      ensures Room(old(head.cve), old(head.cve.View()), old(other.head.cve.View()), head.cve) || fresh(head.cve.backing)
      ensures Room(old(head.cwe), old(head.cwe.View()), old(other.head.cwe.View()), head.cwe) || fresh(head.cwe.backing)
      ensures Fits(old(head.cve), old(head.cve.View()), old(other.head.cve.View())) <==> head.cve.backing == old(head.cve.backing)
      ensures Fits(old(head.cwe), old(head.cwe.View()), old(other.head.cwe.View())) <==> head.cwe.backing == old(head.cwe.backing)
      ensures head.tools.backing == old(head.tools.backing) || fresh(head.tools.backing)
      ensures head.evidence.backing == old(head.evidence.backing) || fresh(head.evidence.backing)
    {
      hide AppendNew, ArrayAfter, SortStrings;
      var o := other.head;
      ghost var was, others := Value(), other.Value();
      var tools, newTool, cve, cwe, evidence := MergeLists(head, o);
      var plain := MergePlain(head.plain, o.plain, newTool);
      head := head.(plain := plain, tools := tools, cve := cve, cwe := cwe, evidence := evidence);
      assert newTool == BringsNewTool(was, others);
      MergedValue(was, others, head.plain, Value());
    }
  }

  /** The scalar fields of `Merge`. */
  method MergePlain(f: Finding, o: Finding, newTool: bool) returns (p: Finding)
    ensures p == Assessed(f, o, newTool)
  {
    p := f;
    if o.severity.Rank() > p.severity.Rank() {
      p := p.(severity := o.severity);
    }
    if o.confidence.Rank() > p.confidence.Rank() {
      p := p.(confidence := o.confidence);
    }
    if newTool {
      p := p.(confidence := p.confidence.Promote());
    }
    if p.cvss == 0.0 && o.cvss > 0.0 {
      p := p.(cvss := o.cvss);
    }
    if p.remediation == "" {
      p := p.(remediation := o.remediation);
    }
    if o.status == MANUAL_REVIEW {
      p := p.(status := MANUAL_REVIEW);
    }
  }

  /** The scalar fields of a merged finding. */
  function Assessed(f: Finding, o: Finding, newTool: bool): Finding {
    var c := HigherConfidence(f.confidence, o.confidence);
    f.(severity := if o.severity.Rank() > f.severity.Rank() then o.severity else f.severity,
       confidence := if newTool then c.Promote() else c,
       cvss := if f.cvss == 0.0 && o.cvss > 0.0 then o.cvss else f.cvss,
       remediation := if f.remediation == "" then o.remediation else f.remediation,
       status := if o.status == MANUAL_REVIEW then MANUAL_REVIEW else f.status)
  }

  function Lists(f: Finding): (seq<string>, seq<string>, seq<string>, seq<Evidence>, seq<Control>) {
    (f.tools, f.cve, f.cwe, f.evidence, f.compliance)
  }

  /** The scalar fields of a finding, with other lists. */
  function WithLists(p: Finding, f: Finding): Finding {
    p.(tools := f.tools, cve := f.cve, cwe := f.cwe, evidence := f.evidence, compliance := f.compliance)
  }

  lemma MergedValue(f: Finding, o: Finding, p: Finding, r: Finding)
    requires exists pf, po :: p == Assessed(pf, po, BringsNewTool(f, o)) && f == WithLists(pf, f) && o == WithLists(po, o)
    requires r == WithLists(p, r)
    requires Lists(r) == (MergeUnique(f.tools, o.tools), MergeUnique(f.cve, o.cve), MergeUnique(f.cwe, o.cwe),
                          f.evidence + o.evidence, f.compliance)
    ensures r == MergeFinding(f, o)
  {
    hide MergeUnique, BringsNewTool;
  }

  /** Merging `b` into the list `s`, which shows `a`, does not outgrow its array. */
  predicate Fits(s: Slice<string>, a: seq<string>, b: seq<string>) {
    |AppendNew(a, b)| <= s.backing.Length
  }

  predicate Room(s: Slice<string>, a: seq<string>, b: seq<string>, r: Slice<string>) {
    Fits(s, a, b) && r == Slice(s.backing, |AppendNew(a, b)|)
  }

  /** The list fields of `Merge`: tools first, then CVEs, CWEs and evidence. */
  method MergeLists(f: FindingHead, o: FindingHead)
    returns (tools: Slice<string>, newTool: bool, cve: Slice<string>, cwe: Slice<string>, evidence: Slice<Evidence>)
    requires f.Tidy() && KindsApart(f, o)
    modifies f.tools.backing, f.cve.backing, f.cwe.backing, f.evidence.backing
    ensures tools.View() == MergeUnique(old(f.tools.View()), old(o.tools.View()))
    ensures cve.View() == MergeUnique(old(f.cve.View()), old(o.cve.View()))
    ensures cwe.View() == MergeUnique(old(f.cwe.View()), old(o.cwe.View()))
    ensures evidence.View() == old(f.evidence.View()) + old(o.evidence.View())
    ensures newTool <==> exists t :: t in old(o.tools.View()) && t !in old(f.tools.View())
    ensures f.cve.backing[..] == ArrayAfter(old(f.cve.backing[..]), f.cve.Len(), old(o.cve.View()))
    ensures f.cwe.backing[..] == ArrayAfter(old(f.cwe.backing[..]), f.cwe.Len(), old(o.cwe.View()))
    ensures if Fits(f.cve, old(f.cve.View()), old(o.cve.View())) then Room(f.cve, old(f.cve.View()), old(o.cve.View()), cve) else fresh(cve.backing)
    ensures if Fits(f.cwe, old(f.cwe.View()), old(o.cwe.View())) then Room(f.cwe, old(f.cwe.View()), old(o.cwe.View()), cwe) else fresh(cwe.backing)
    ensures tools.backing == f.tools.backing || fresh(tools.backing)
    ensures evidence.backing == f.evidence.backing || fresh(evidence.backing)
    ensures tools.backing != cve.backing && tools.backing != cwe.backing && cve.backing != cwe.backing
    ensures f.compliance.View() == old(f.compliance.View())
  {
    hide AppendNew, ArrayAfter, SortStrings;
    tools, newTool := AppendMissing(f.tools, o.tools);
    SortInPlace(tools);
    cve := MergeUniqueInPlace(f.cve, o.cve);
    cwe := MergeUniqueInPlace(f.cwe, o.cwe);
    evidence := AppendAll(f.evidence, o.evidence);
  }

  ghost function Objects(rs: seq<FindingRecord>): set<object>
    reads rs
  {
    set i, o | 0 <= i < |rs| && o in rs[i].Repr() :: o
  }

  ghost function Values(rs: seq<FindingRecord>): (r: seq<Finding>)
    reads rs, Objects(rs)
    ensures |r| == |rs| && forall i :: 0 <= i < |rs| ==> r[i] == rs[i].Value()
  {
    seq(|rs|, i requires 0 <= i < |rs| reads rs, Objects(rs) => rs[i].Value())
  }
}
