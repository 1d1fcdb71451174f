/** internal/authz/authz.go: the authorisation gate and its hash-chained log. The digest is a parameter
    of which only the shape of the output and the absence of collisions is ever assumed; parsing of
    addresses and CIDR blocks is a parameter too. */
module Authz {
  import opened Text
  import opened Ordering
  import opened Findings

  datatype Record = Record(
    operator: string, statement: string, targets: seq<string>, scope: seq<string>,
    at: int, prevHash: string, entryHash: string)

  // ----- the text that is hashed -----

  function Fields(r: Record): (f: seq<string>)
    ensures |f| == 6
  {
    [r.operator, r.statement, Join(r.targets, ','), Join(r.scope, ','), Itoa(r.at), r.prevHash]
  }

  function HashedText(r: Record): string { Join(Fields(r), NUL) }

  predicate PlainList(l: seq<string>) {
    l != [""] && forall p :: p in l ==> ',' !in p && NUL !in p
  }

  /** No field can be mistaken for a separator. */
  predicate Plain(r: Record) {
    NUL !in r.operator && NUL !in r.statement && NUL !in r.prevHash && PlainList(r.targets) && PlainList(r.scope)
  }

  /** Reads a list back from its joined form. */
  function ReadList(s: string): seq<string> {
    if s == "" then [] else Split(s, ',')
  }

  function ReadInt(s: string): Option<int> {
    if s != "" && forall c :: c in s ==> IsDigit(c) then
      if Itoa(Value(s)) == s then Some(Value(s)) else None
    else if s != "" && s[0] == '-' && forall c :: c in s[1..] ==> IsDigit(c) then
      var n: int := Value(s[1..]);
      if Itoa(-n) == s then Some(-n) else None
    else None
  }

  /** Reads a record (without its own hash) back from the text that is hashed. */
  function ReadRecord(s: string): Option<Record> {
    var parts := Split(s, NUL);
    if |parts| != 6 then None else
    match ReadInt(parts[4])
    case None => None
    case Some(at) => Some(Record(parts[0], parts[1], ReadList(parts[2]), ReadList(parts[3]), at, parts[5], ""))
  }

  lemma ReadIntIsExact(s: string, n: int)
    ensures ReadInt(s) == Some(n) <==> s == Itoa(n)
  {
    if s == Itoa(n) {
      ItoaSign(n);
      ValueOfDigits(if n < 0 then -n else n);
      if n < 0 {
        assert s[1..] == Digits(-n);
        assert s[0] in s && !IsDigit(s[0]);
      }
    }
  }

  lemma ReadListIsExact(s: string, l: seq<string>)
    ensures ReadList(s) == l ==> Join(l, ',') == s
    ensures ReadList(Join(l, ',')) == l <==> l != [""] && forall p :: p in l ==> ',' !in p
  {
    JoinSplit(s, ',');
    SplitJoin(l, ',');
    if l != [] && Join(l, ',') == "" {
      assert |l| == 1 && l == [l[0]];
    }
  }

  lemma JoinMembers(l: seq<string>, sep: char, c: char)
    requires c != sep
    ensures c in Join(l, sep) <==> exists p :: p in l && c in p
  {
    if |l| == 1 {
      assert l[0] in l;
      assert forall p :: p in l ==> p == l[0];
    } else if |l| > 1 {
      JoinMembers(l[1..], sep, c);
      assert l == [l[0]] + l[1..];
      assert l[0] in l;
      assert forall p :: p in l <==> p == l[0] || p in l[1..];
    }
  }

  lemma FieldsWithoutSeparator(r: Record)
    ensures (forall p :: p in Fields(r) ==> NUL !in p)
            <==> NUL !in r.operator && NUL !in r.statement && NUL !in r.prevHash
                 && (forall p :: p in r.targets ==> NUL !in p) && (forall p :: p in r.scope ==> NUL !in p)
  {
    JoinMembers(r.targets, ',', NUL);
    JoinMembers(r.scope, ',', NUL);
    var f := Fields(r);
    assert forall c :: c in Itoa(r.at) ==> c != NUL;
    assert f[0] in f && f[1] in f && f[2] in f && f[3] in f && f[4] in f && f[5] in f;
  }

  /** The hashed text gives the record back exactly when the record is plain. */
  lemma HashedTextIsUnambiguous(r: Record)
    ensures ReadRecord(HashedText(r)) == Some(r.(entryHash := "")) <==> Plain(r)
  {
    var f := Fields(r);
    SplitJoin(f, NUL);
    FieldsWithoutSeparator(r);
    ReadListIsExact(f[2], r.targets);
    ReadListIsExact(f[3], r.scope);
    ReadIntIsExact(f[4], r.at);
    if ReadRecord(HashedText(r)) == Some(r.(entryHash := "")) {
      var parts := Split(HashedText(r), NUL);
      ReadListIsExact(parts[2], r.targets);
      ReadListIsExact(parts[3], r.scope);
      ReadIntIsExact(parts[4], r.at);
      assert parts == f;
    }
  }

  lemma HashedTextDetermines(a: Record, b: Record)
    requires Plain(a) && Plain(b)
    requires HashedText(a) == HashedText(b)
    ensures a.(entryHash := "") == b.(entryHash := "")
  {
    HashedTextIsUnambiguous(a);
    HashedTextIsUnambiguous(b);
  }

  // ----- the chain -----

  function Tip(es: seq<Record>): string {
    if es == [] then "" else es[|es| - 1].entryHash
  }

  predicate PrevHolds(es: seq<Record>, i: nat)
    requires i < |es|
  {
    es[i].prevHash == Tip(es[..i])
  }

  predicate HashHolds(hash: string -> string, r: Record) {
    r.entryHash == hash(HashedText(r))
  }

  predicate Verifies(hash: string -> string, es: seq<Record>) {
    forall i :: 0 <= i < |es| ==> PrevHolds(es, i) && HashHolds(hash, es[i])
  }

  function Linked(hash: string -> string, es: seq<Record>, r: Record): Record {
    var r1 := r.(prevHash := Tip(es));
    r1.(entryHash := hash(HashedText(r1)))
  }

  lemma LinkedOnce(hash: string -> string, es: seq<Record>, r: Record)
    ensures Linked(hash, es, Linked(hash, es, r)) == Linked(hash, es, r)
  {
    var q := Linked(hash, es, r);
    assert Fields(q) == Fields(r.(prevHash := Tip(es)));
  }

  lemma PrefixVerifies(hash: string -> string, es: seq<Record>, k: nat)
    requires k <= |es| && Verifies(hash, es)
    ensures Verifies(hash, es[..k])
  {
    forall i | 0 <= i < k ensures PrevHolds(es[..k], i) && HashHolds(hash, es[..k][i]) {
      assert es[..k][..i] == es[..i];
      assert PrevHolds(es, i);
    }
  }

  /** A log verifies exactly when its prefix does and its last entry is what appending produces. */
  lemma VerifiesSnoc(hash: string -> string, es: seq<Record>, r: Record)
    ensures Verifies(hash, es + [r]) <==> Verifies(hash, es) && r == Linked(hash, es, r)
  {
    var t := es + [r];
    var n := |es|;
    assert t[..n] == es && t[n] == r;
    if Verifies(hash, t) {
      PrefixVerifies(hash, t, n);
      assert PrevHolds(t, n) && HashHolds(hash, t[n]);
    }
    if Verifies(hash, es) && r == Linked(hash, es, r) {
      forall i | 0 <= i < |t| ensures PrevHolds(t, i) && HashHolds(hash, t[i]) {
        if i < n {
          assert t[..i] == es[..i];
          assert PrevHolds(es, i) && HashHolds(hash, es[i]);
        }
      }
    }
  }

  /** The digest prints as a fixed number of hexadecimal digits. */
  predicate IsHex(c: char) { '0' <= c <= '9' || 'a' <= c <= 'f' }

  ghost predicate HexDigest(hash: string -> string) {
    forall x {:trigger hash(x)} :: |hash(x)| == 32 && forall c :: c in hash(x) ==> IsHex(c)
  }

  /** No two of the texts hashed for the two logs collide. */
  ghost predicate NoCollision(hash: string -> string, a: seq<Record>, b: seq<Record>) {
    forall r, q :: r in a && q in b && hash(HashedText(r)) == hash(HashedText(q)) ==> HashedText(r) == HashedText(q)
  }

  predicate AllPlain(es: seq<Record>) {
    forall r :: r in es ==> Plain(r)
  }

  lemma SameHashSameRecord(hash: string -> string, a: seq<Record>, b: seq<Record>, r: Record, q: Record)
    requires AllPlain(a) && AllPlain(b) && NoCollision(hash, a, b)
    requires r in a && q in b && r.entryHash == q.entryHash && HashHolds(hash, r) && HashHolds(hash, q)
    ensures r == q
  {
    hide HashedText, Plain;
    HashedTextDetermines(r, q);
  }

  /** The previous hash is that of the entry before, and is empty at the first entry only. */
  lemma LinkBack(hash: string -> string, es: seq<Record>, i: nat)
    requires HexDigest(hash) && Verifies(hash, es) && i < |es|
    ensures HashHolds(hash, es[i])
    ensures if i == 0 then es[i].prevHash == "" else es[i].prevHash == es[i - 1].entryHash != ""
  {
    hide HashedText;
    assert PrevHolds(es, i) && HashHolds(hash, es[i]);
    if i > 0 {
      assert HashHolds(hash, es[i - 1]);
    }
  }

  /** One shared entry hash, anywhere in two logs that verify, means one shared history up to there. */
  lemma {:induction false} SharedHashSharedHistory(hash: string -> string, a: seq<Record>, b: seq<Record>, i: nat, j: nat)
    requires HexDigest(hash) && Verifies(hash, a) && Verifies(hash, b)
    requires AllPlain(a) && AllPlain(b) && NoCollision(hash, a, b)
    requires i < |a| && j < |b| && a[i].entryHash == b[j].entryHash
    ensures i == j && a[..i + 1] == b[..j + 1]
  {
    hide HexDigest, Verifies, AllPlain, NoCollision, HashHolds;
    LinkBack(hash, a, i);
    LinkBack(hash, b, j);
    SameHashSameRecord(hash, a, b, a[i], b[j]);
    TakeNext(a, i);
    TakeNext(b, j);
    if i > 0 {
      SharedHashSharedHistory(hash, a, b, i - 1, j - 1);
    }
  }

  lemma TipIsEmpty(hash: string -> string, es: seq<Record>)
    requires HexDigest(hash) && Verifies(hash, es)
    ensures Tip(es) == "" <==> es == []
  {
    hide HashedText;
    if es != [] {
      assert HashHolds(hash, es[|es| - 1]);
    }
  }

  lemma SameTipSameLog(hash: string -> string, a: seq<Record>, b: seq<Record>)
    requires HexDigest(hash) && Verifies(hash, a) && Verifies(hash, b)
    requires AllPlain(a) && AllPlain(b) && NoCollision(hash, a, b)
    ensures a == b <==> Tip(a) == Tip(b)
  {
    TipIsEmpty(hash, a);
    TipIsEmpty(hash, b);
    hide Verifies, AllPlain, NoCollision, HexDigest;
    if Tip(a) == Tip(b) && a != [] {
      SharedHashSharedHistory(hash, a, b, |a| - 1, |b| - 1);
      assert a[..|a|] == a && b[..|b|] == b;
    }
  }

  lemma SamePrefixSameEntry(a: seq<Record>, b: seq<Record>, k: nat, m: nat, i: nat)
    requires i <= k < |a| && m < |b| && a[..k + 1] == b[..m + 1]
    ensures i < |b| && a[i] == b[i]
  {
    assert a[..k + 1][i] == a[i];
  }

  /** What altering, inserting or removing an entry breaks: from the first difference on, no entry of the
      original can appear anywhere in another log that verifies. */
  lemma LaterEntriesCannotBeKept(hash: string -> string, a: seq<Record>, b: seq<Record>, i: nat, k: nat)
    requires HexDigest(hash) && Verifies(hash, a) && Verifies(hash, b)
    requires AllPlain(a) && AllPlain(b) && NoCollision(hash, a, b)
    requires i <= k < |a| && (i < |b| ==> a[i] != b[i])
    ensures forall m :: 0 <= m < |b| ==> b[m].entryHash != a[k].entryHash
  {
    forall m | 0 <= m < |b| ensures b[m].entryHash != a[k].entryHash {
      if b[m].entryHash == a[k].entryHash {
        SharedHashSharedHistory(hash, a, b, k, m);
        SamePrefixSameEntry(a, b, k, m, i);
      }
    }
  }

  // ----- canonical lists -----

  predicate NonEmpty(s: string) { s != "" }

  /** Cleaned, without empty entries and repeats, sorted. */
  function Normalise(xs: seq<string>): seq<string> {
    SortStrings(Distinct(Filter(NonEmpty, MapSeq(Clean, xs))))
  }

  method NormaliseList(xs: seq<string>) returns (out: seq<string>)
    ensures out == Normalise(xs)
  {
    var seen: set<string> := {};
    out := [];
    for i := 0 to |xs|
      invariant out == Distinct(Filter(NonEmpty, MapSeq(Clean, xs[..i])))
      invariant forall x :: x in seen <==> x in out
    {
      var s := Clean(xs[i]);
      TakeNext(xs, i);
      MapSnoc(Clean, xs[..i], xs[i]);
      FilterStep(NonEmpty, MapSeq(Clean, xs[..i]), s);
      DistinctSnoc(Filter(NonEmpty, MapSeq(Clean, xs[..i])), s);
      if s == "" || s in seen {
        continue;
      }
      seen := seen + {s};
      out := out + [s];
    }
    assert xs[..|xs|] == xs;
    out := SortStrings(out);
  }

  function CleanedSet(xs: seq<string>): set<string> {
    set x | x in xs && Clean(x) != "" :: Clean(x)
  }

  lemma NormaliseMembers(xs: seq<string>)
    ensures forall s :: s in Normalise(xs) <==> s in CleanedSet(xs)
    ensures NoDuplicates(Normalise(xs)) && Sorted(StrLeq, Normalise(xs))
  {
    hide Clean, StrLeq;
    var m := MapSeq(Clean, xs);
    var d := Distinct(Filter(NonEmpty, m));
    SameElements(Normalise(xs), d);
    NoDuplicatesPermutes(d, Normalise(xs));
    forall s ensures s in m && s != "" <==> s in CleanedSet(xs) {
      if s in m && s != "" {
        var i :| 0 <= i < |xs| && m[i] == s;
        assert xs[i] in xs;
      }
      if s in CleanedSet(xs) {
        var x :| x in xs && Clean(x) == s;
        var i :| 0 <= i < |xs| && xs[i] == x;
        assert m[i] == s;
      }
    }
    StrOrder();
    SortBySorted(StrLeq, d);
  }

  /** Two lists have one canonical form exactly when their cleaned sets are equal. */
  lemma NormaliseIsCanonical(a: seq<string>, b: seq<string>)
    ensures Normalise(a) == Normalise(b) <==> CleanedSet(a) == CleanedSet(b)
  {
    hide Clean, StrLeq, Normalise;
    NormaliseMembers(a);
    NormaliseMembers(b);
    if CleanedSet(a) == CleanedSet(b) {
      SameSetSameMultiset(Normalise(a), Normalise(b));
      StrOrder();
      SortedUnique(StrLeq, Normalise(a), Normalise(b));
    } else {
      assert exists s :: (s in CleanedSet(a)) != (s in CleanedSet(b));
    }
  }

  lemma NormaliseIdempotent(xs: seq<string>)
    ensures Normalise(Normalise(xs)) == Normalise(xs)
  {
    hide Normalise, Clean;
    var n := Normalise(xs);
    NormaliseMembers(xs);
    forall x | x in xs ensures Clean(Clean(x)) == Clean(x) {
      CleanIdempotent(x);
    }
    assert forall s :: s in n ==> Clean(s) == s && s != "";
    assert CleanedSet(n) == CleanedSet(xs) by {
      forall s ensures s in CleanedSet(n) <==> s in CleanedSet(xs) {
        if s in CleanedSet(xs) {
          assert s in n && Clean(s) == s;
        }
      }
    }
    NormaliseIsCanonical(n, xs);
  }

  method EqualLists(a: seq<string>, b: seq<string>) returns (r: bool)
    ensures r <==> a == b
  {
    if |a| != |b| {
      return false;
    }
    for i := 0 to |a|
      invariant a[..i] == b[..i]
    {
      if a[i] != b[i] {
        return false;
      }
    }
    assert a[..|a|] == a && b[..|b|] == b;
    return true;
  }
}
