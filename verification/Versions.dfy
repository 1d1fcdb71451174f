/** internal/adapters/vulnsig.go: version comparison and matching observed versions against signatures.
    Finding version strings in text (a regular expression) is a parameter. */
module Versions {
  import opened Text
  import opened Ordering
  import opened Findings

  // ----- reading a version -----

  const MAX_INT := 0x7FFF_FFFF_FFFF_FFFF

  function DigitPrefix(p: string): (n: nat)
    ensures n <= |p|
    ensures forall c :: c in p[..n] ==> IsDigit(c)
    ensures n < |p| ==> !IsDigit(p[n])
  {
    if p == "" || !IsDigit(p[0]) then 0
    else
      var n := 1 + DigitPrefix(p[1..]);
      assert p[..n] == [p[0]] + p[1..][..n - 1];
      n
  }

  /** The leading digits of a component, zero when there are none or when they overflow an int. */
  function NumberOf(p: string): (r: nat)
    ensures r <= MAX_INT
  {
    var n := Value(p[..DigitPrefix(p)]);
    if n > MAX_INT then 0 else n
  }

  function Components(v: string): (r: seq<nat>)
    ensures r != []
  {
    MapSeq(NumberOf, Split(TrimSpace(v), '.'))
  }

  method SplitVersion(v: string) returns (out: seq<nat>)
    ensures out == Components(v)
  {
    hide NumberOf, Split, TrimSpace;
    var parts := Split(TrimSpace(v), '.');
    out := [];
    for i := 0 to |parts|
      invariant out == MapSeq(NumberOf, parts[..i])
    {
      TakeNext(parts, i);
      MapSnoc(NumberOf, parts[..i], parts[i]);
      var n := ReadNumber(parts[i]);
      out := out + [n];
    }
    assert parts[..|parts|] == parts;
  }

  method ReadNumber(p: string) returns (n: nat)
    ensures n == NumberOf(p)
  {
    var end := 0;
    while end < |p| && IsDigit(p[end])
      invariant 0 <= end <= DigitPrefix(p)
    {
      PrefixGoesOn(p, end);
      end := end + 1;
    }
    PrefixStops(p, end);
    if end == 0 {
      return 0;
    }
    n := Value(p[..end]);
    if n > MAX_INT {
      n := 0;
    }
  }

  lemma PrefixGoesOn(p: string, i: nat)
    requires i <= DigitPrefix(p) && i < |p| && IsDigit(p[i])
    ensures i < DigitPrefix(p)
  {
  }

  lemma PrefixStops(p: string, i: nat)
    requires i <= DigitPrefix(p) && (i < |p| ==> !IsDigit(p[i]))
    ensures i == DigitPrefix(p)
    ensures i == 0 ==> NumberOf(p) == 0
  {
    var digits := p[..DigitPrefix(p)];
    assert forall j :: 0 <= j < |digits| ==> digits[j] in digits && IsDigit(p[j]);
  }

  // ----- comparing versions -----

  /** Missing components count as zero. */
  function Component(s: seq<nat>, i: int): int {
    if 0 <= i < |s| then s[i] else 0
  }

  predicate AgreeBelow(a: seq<nat>, b: seq<nat>, n: nat) {
    forall i :: 0 <= i < n ==> Component(a, i) == Component(b, i)
  }

  /** The first component in which they differ is smaller in `a`. */
  ghost predicate Less(a: seq<nat>, b: seq<nat>) {
    exists i: nat :: AgreeBelow(a, b, i) && Component(a, i) < Component(b, i)
  }

  ghost predicate Same(a: seq<nat>, b: seq<nat>) {
    forall i: nat :: Component(a, i) == Component(b, i)
  }

  /** Exactly one of the three holds. */
  lemma Trichotomy(a: seq<nat>, b: seq<nat>)
    ensures Less(a, b) ==> !Less(b, a) && !Same(a, b)
    ensures Same(a, b) ==> !Less(a, b) && !Less(b, a)
    ensures Less(a, b) || Less(b, a) || Same(a, b)
  {
    if Less(a, b) {
      var i: nat :| AgreeBelow(a, b, i) && Component(a, i) < Component(b, i);
      forall j: nat ensures !(AgreeBelow(b, a, j) && Component(b, j) < Component(a, j)) {
        assert j < i ==> Component(a, j) == Component(b, j);
        assert i < j && AgreeBelow(b, a, j) ==> Component(b, i) == Component(a, i);
      }
    }
    var n := if |a| < |b| then |b| else |a|;
    DecideBelow(a, b, n);
  }

  lemma {:induction false} DecideBelow(a: seq<nat>, b: seq<nat>, n: nat)
    ensures AgreeBelow(a, b, n) || Less(a, b) || Less(b, a)
    ensures n >= |a| && n >= |b| && AgreeBelow(a, b, n) ==> Same(a, b)
  {
    if n > 0 {
      DecideBelow(a, b, n - 1);
      if AgreeBelow(a, b, n - 1) && Component(a, n - 1) != Component(b, n - 1) {
        assert AgreeBelow(b, a, n - 1);
      }
    }
  }

  lemma LessTransitive(a: seq<nat>, b: seq<nat>, c: seq<nat>)
    ensures (Less(a, b) || Same(a, b)) && (Less(b, c) || Same(b, c)) ==> (Less(a, c) || Same(a, c))
    ensures (Less(a, b) || Same(a, b)) && Less(b, c) ==> Less(a, c)
    ensures Less(a, b) && (Less(b, c) || Same(b, c)) ==> Less(a, c)
  {
    if Less(a, b) && Less(b, c) {
      var i: nat :| AgreeBelow(a, b, i) && Component(a, i) < Component(b, i);
      var j: nat :| AgreeBelow(b, c, j) && Component(b, j) < Component(c, j);
      var k := if i < j then i else j;
      assert AgreeBelow(a, c, k) && Component(a, k) < Component(c, k);
    } else if Same(a, b) && Less(b, c) {
      var j: nat :| AgreeBelow(b, c, j) && Component(b, j) < Component(c, j);
      assert AgreeBelow(a, c, j) && Component(a, j) < Component(c, j);
    } else if Less(a, b) && Same(b, c) {
      var i: nat :| AgreeBelow(a, b, i) && Component(a, i) < Component(b, i);
      assert AgreeBelow(a, c, i) && Component(a, i) < Component(c, i);
    }
  }

  ghost function Compare(a: string, b: string): int {
    if Less(Components(a), Components(b)) then -1
    else if Less(Components(b), Components(a)) then 1
    else 0
  }

  method CompareVersions(a: string, b: string) returns (r: int)
    ensures r == Compare(a, b)
  {
    hide Components;
    var x := SplitVersion(a);
    var y := SplitVersion(b);
    Trichotomy(x, y);
    var n := |x|;
    if |y| > n {
      n := |y|;
    }
    for i := 0 to n
      invariant AgreeBelow(x, y, i)
    {
      var p, q := 0, 0;
      if i < |x| {
        p := x[i];
      }
      if i < |y| {
        q := y[i];
      }
      if p < q {
        assert Component(x, i) < Component(y, i);
        return -1;
      }
      if p > q {
        assert AgreeBelow(y, x, i) && Component(y, i) < Component(x, i);
        return 1;
      }
    }
    DecideBelow(x, y, n);
    return 0;
  }

  /** Comparison is a total preorder: antisymmetric in sign, transitive, and zero exactly for versions that agree
      once padded with zeros. */
  lemma CompareIsTotalPreorder(a: string, b: string, c: string)
    ensures Compare(a, b) == -Compare(b, a)
    ensures Compare(a, b) <= 0 && Compare(b, c) <= 0 ==> Compare(a, c) <= 0
    ensures Compare(a, b) == 0 <==> Same(Components(a), Components(b))
    ensures Compare(a, b) == 0 ==> Compare(a, c) == Compare(b, c)
  {
    hide Components, Less, Same;
    var x, y, z := Components(a), Components(b), Components(c);
    Trichotomy(x, y);
    Trichotomy(y, x);
    Trichotomy(x, z);
    Trichotomy(y, z);
    SameSymmetric(x, y);
    LessTransitive(x, y, z);
    LessTransitive(y, x, z);
    LessTransitive(z, x, y);
    LessTransitive(z, y, x);
  }

  lemma SameSymmetric(x: seq<nat>, y: seq<nat>)
    ensures Same(x, y) <==> Same(y, x)
  {
  }

  // ----- signatures -----

  datatype Signature = Signature(product: string, below: string, atLeast: string)

  ghost predicate Matches(sig: Signature, product: string, version: string) {
    sig.product == product && Compare(version, sig.below) < 0
    && (sig.atLeast != "" ==> Compare(version, sig.atLeast) >= 0)
  }

  /** The versions a signature matches form an interval, and versions that compare equal are treated alike. */
  lemma MatchesAreAnInterval(sig: Signature, product: string, low: string, mid: string, high: string)
    requires Matches(sig, product, low) && Matches(sig, product, high)
    requires Compare(low, mid) <= 0 && Compare(mid, high) <= 0
    ensures Matches(sig, product, mid)
  {
    hide Compare;
    CompareIsTotalPreorder(mid, high, sig.below);
    CompareIsTotalPreorder(high, sig.below, mid);
    CompareIsTotalPreorder(mid, sig.below, high);
    CompareIsTotalPreorder(high, mid, sig.below);
    CompareIsTotalPreorder(sig.atLeast, low, mid);
    CompareIsTotalPreorder(low, sig.atLeast, mid);
    CompareIsTotalPreorder(mid, sig.atLeast, low);
    CompareIsTotalPreorder(sig.below, mid, high);
  }

  // ----- what is observed -----

  datatype Observed = Observed(product: string, version: string, port: int)

  /** A sighting: a version next to a product token, in one piece of evidence. */
  datatype Mention = Mention(token: string, version: string)

  datatype Scan = Scan(aliases: map<string, string>, mentions: string -> seq<Mention>, signatures: seq<Signature>)

  predicate Telling(e: Evidence) {
    e.kind == "banner" || e.kind == "header" || e.kind == "fingerprint" || e.kind == "http"
  }

  /** Every recognised sighting, repeats included, in order. */
  function InMentions(scan: Scan, ms: seq<Mention>, port: int): seq<Observed> {
    if ms == [] then [] else
      var m := ms[|ms| - 1];
      var rest := InMentions(scan, ms[..|ms| - 1], port);
      if Lower(m.token) in scan.aliases then rest + [Observed(scan.aliases[Lower(m.token)], m.version, port)] else rest
  }

  function InEvidence(scan: Scan, es: seq<Evidence>, port: int): seq<Observed> {
    if es == [] then [] else
      var e := es[|es| - 1];
      InEvidence(scan, es[..|es| - 1], port) + if Telling(e) then InMentions(scan, scan.mentions(e.value), port) else []
  }

  function Sightings(scan: Scan, prior: seq<Finding>, target: string): seq<Observed> {
    if prior == [] then [] else
      var f := prior[|prior| - 1];
      Sightings(scan, prior[..|prior| - 1], target) + if f.target == target then InEvidence(scan, f.evidence, f.port) else []
  }

  function KeyOf(o: Observed): string { Join([o.product, o.version, Itoa(o.port)], '|') }

  predicate BarFree(o: Observed) { '|' !in o.product && '|' !in o.version }

  lemma KeyTellsApart(a: Observed, b: Observed)
    requires BarFree(a) && BarFree(b) && KeyOf(a) == KeyOf(b)
    ensures a == b
  {
    var x, y := [a.product, a.version, Itoa(a.port)], [b.product, b.version, Itoa(b.port)];
    assert '|' !in Itoa(a.port) && '|' !in Itoa(b.port);
    SplitJoin(x, '|');
    SplitJoin(y, '|');
    assert x[2] == y[2] && x[0] == y[0] && x[1] == y[1];
    ItoaInjective(a.port, b.port);
  }

  /** Aliases and version strings hold no separator of the de-duplication key. */
  ghost predicate KeysAreSafe(scan: Scan) {
    (forall t :: t in scan.aliases ==> '|' !in scan.aliases[t])
    && forall text: string, m: Mention :: m in scan.mentions(text) ==> '|' !in m.version
  }

  /** The de-duplication map and the list it guards, as two views of one set. */
  ghost predicate Guards(dedupe: set<string>, seen: seq<Observed>, all: seq<Observed>) {
    seen == Distinct(all) && (forall o :: o in all ==> BarFree(o)) && forall k :: k in dedupe <==> exists o :: o in all && KeyOf(o) == k
  }

  lemma SeeOne(dedupe: set<string>, seen: seq<Observed>, all: seq<Observed>, o: Observed)
    requires Guards(dedupe, seen, all) && BarFree(o)
    ensures KeyOf(o) in dedupe <==> o in all
    ensures Guards(dedupe + {KeyOf(o)}, if o in all then seen else seen + [o], all + [o])
  {
    hide KeyOf, BarFree;
    DistinctSnoc(all, o);
    forall x | x in all && KeyOf(x) == KeyOf(o) ensures x == o {
      KeyTellsApart(x, o);
    }
    forall k ensures k in dedupe + {KeyOf(o)} <==> exists x :: x in all + [o] && KeyOf(x) == k {
      if k in dedupe {
        var x :| x in all && KeyOf(x) == k;
        assert x in all + [o];
      } else if k == KeyOf(o) {
        assert o in all + [o];
      }
    }
  }

  method ObserveMentions(scan: Scan, ms: seq<Mention>, port: int, dedupe: set<string>, seen: seq<Observed>, ghost all: seq<Observed>)
    returns (dedupe': set<string>, seen': seq<Observed>)
    requires Guards(dedupe, seen, all)
    requires (forall t :: t in scan.aliases ==> '|' !in scan.aliases[t]) && forall m :: m in ms ==> '|' !in m.version
    ensures Guards(dedupe', seen', all + InMentions(scan, ms, port))
  {
    hide Guards, KeyOf, Lower;
    dedupe', seen' := dedupe, seen;
    assert all + InMentions(scan, ms[..0], port) == all;
    for i := 0 to |ms|
      invariant Guards(dedupe', seen', all + InMentions(scan, ms[..i], port))
    {
      assert ms[..i + 1][..i] == ms[..i];
      var m := ms[i];
      assert m in ms;
      var token := Lower(m.token);
      if token !in scan.aliases {
        continue;
      }
      var o := Observed(scan.aliases[token], m.version, port);
      ghost var before := all + InMentions(scan, ms[..i], port);
      SeeOne(dedupe', seen', before, o);
      ConcatAssociative(all, InMentions(scan, ms[..i], port), [o]);
      if KeyOf(o) in dedupe' {
        assert dedupe' + {KeyOf(o)} == dedupe';
        continue;
      }
      dedupe' := dedupe' + {KeyOf(o)};
      seen' := seen' + [o];
    }
    assert ms[..|ms|] == ms;
  }

  method ObserveEvidence(scan: Scan, es: seq<Evidence>, port: int, dedupe: set<string>, seen: seq<Observed>, ghost all: seq<Observed>)
    returns (dedupe': set<string>, seen': seq<Observed>)
    requires Guards(dedupe, seen, all) && KeysAreSafe(scan)
    ensures Guards(dedupe', seen', all + InEvidence(scan, es, port))
  {
    hide Guards, InMentions;
    dedupe', seen' := dedupe, seen;
    assert all + InEvidence(scan, es[..0], port) == all;
    for i := 0 to |es|
      invariant Guards(dedupe', seen', all + InEvidence(scan, es[..i], port))
    {
      assert es[..i + 1][..i] == es[..i];
      ghost var before := all + InEvidence(scan, es[..i], port);
      assert before + [] == before;
      if !Telling(es[i]) {
        assert InEvidence(scan, es[..i], port) + [] == InEvidence(scan, es[..i], port);
        continue;
      }
      var ms := scan.mentions(es[i].value);
      ConcatAssociative(all, InEvidence(scan, es[..i], port), InMentions(scan, ms, port));
      dedupe', seen' := ObserveMentions(scan, ms, port, dedupe', seen', before);
    }
    assert es[..|es|] == es;
  }

  /** Every recognised product and version on a port, once, in order of first sighting. */
  method Observe(scan: Scan, prior: seq<Finding>, target: string) returns (seen: seq<Observed>)
    requires KeysAreSafe(scan)
    ensures seen == Distinct(Sightings(scan, prior, target))
  {
    hide InEvidence, KeysAreSafe;
    seen := [];
    var dedupe: set<string> := {};
    assert Guards(dedupe, seen, []);
    for i := 0 to |prior|
      invariant Guards(dedupe, seen, Sightings(scan, prior[..i], target))
    {
      assert prior[..i + 1][..i] == prior[..i];
      var f := prior[i];
      if f.target != target {
        assert Sightings(scan, prior[..i], target) + [] == Sightings(scan, prior[..i], target);
        continue;
      }
      dedupe, seen := ObserveEvidence(scan, f.evidence, f.port, dedupe, seen, Sightings(scan, prior[..i], target));
    }
    assert prior[..|prior|] == prior;
  }

  // ----- what is reported -----

  datatype Emitted = Affected(seen: Observed, sig: Signature) | Noted(seen: Observed)

  ghost function MatchesOf(o: Observed): Signature -> bool {
    sig => Matches(sig, o.product, o.version)
  }

  /** One finding for each signature the version matches, or one record that it was seen. */
  ghost function EmittedFor(scan: Scan, o: Observed): (r: seq<Emitted>)
    ensures r != [] && forall e :: e in r ==> e.seen == o
  {
    var ms := Filter(MatchesOf(o), scan.signatures);
    if ms == [] then [Noted(o)]
    else
      var r := MapSeq((s: Signature) => Affected(o, s), ms);
      assert r[0].seen == o;
      r
  }

  ghost function EmittedForAll(scan: Scan, os: seq<Observed>): seq<Emitted> {
    if os == [] then [] else EmittedForAll(scan, os[..|os| - 1]) + EmittedFor(scan, os[|os| - 1])
  }

  method Report(scan: Scan, o: Observed) returns (out: seq<Emitted>)
    ensures out == EmittedFor(scan, o)
  {
    hide Compare;
    out := [];
    var matched := false;
    var sigs := scan.signatures;
    for i := 0 to |sigs|
      invariant out == MapSeq((s: Signature) => Affected(o, s), Filter(MatchesOf(o), sigs[..i]))
      invariant matched <==> out != []
    {
      var sig := sigs[i];
      TakeNext(sigs, i);
      FilterStep(MatchesOf(o), sigs[..i], sig);
      if sig.product != o.product {
        continue;
      }
      var c := CompareVersions(o.version, sig.below);
      if c >= 0 {
        continue;
      }
      if sig.atLeast != "" {
        var d := CompareVersions(o.version, sig.atLeast);
        if d < 0 {
          continue;
        }
      }
      matched := true;
      MapSnoc((s: Signature) => Affected(o, s), Filter(MatchesOf(o), sigs[..i]), sig);
      out := out + [Affected(o, sig)];
    }
    assert sigs[..|sigs|] == sigs;
    if !matched {
      out := [Noted(o)];
    }
  }

  method Run(scan: Scan, prior: seq<Finding>, target: string) returns (out: seq<Emitted>, nothingSeen: bool)
    requires KeysAreSafe(scan)
    ensures out == EmittedForAll(scan, Distinct(Sightings(scan, prior, target)))
    ensures nothingSeen <==> Sightings(scan, prior, target) == []
  {
    hide EmittedFor, Sightings, KeysAreSafe;
    var seen := Observe(scan, prior, target);
    out, nothingSeen := [], false;
    if |seen| == 0 {
      if Sightings(scan, prior, target) != [] {
        DistinctIsNotEmpty(Sightings(scan, prior, target));
      }
      nothingSeen := true;
      return;
    }
    for i := 0 to |seen|
      invariant out == EmittedForAll(scan, seen[..i])
    {
      assert seen[..i + 1][..i] == seen[..i];
      var one := Report(scan, seen[i]);
      out := out + one;
    }
    assert seen[..|seen|] == seen;
  }

  lemma DistinctIsNotEmpty(s: seq<Observed>)
    requires s != []
    ensures Distinct(s) != []
  {
    assert s[0] in Distinct(s);
  }

  ghost predicate About(e: Emitted, o: Observed) { e.seen == o }

  /** Of everything reported, what is about one observed version is one finding per matching signature, or
      exactly one informational record; nothing is about a version that was not observed. */
  lemma {:induction false} EachVersionIsAccountedFor(scan: Scan, os: seq<Observed>, o: Observed)
    requires NoDuplicates(os)
    ensures Filter((e: Emitted) => About(e, o), EmittedForAll(scan, os)) == if o in os then EmittedFor(scan, o) else []
  {
    hide EmittedFor;
    if os != [] {
      var n := |os| - 1;
      SplitLast(os);
      EachVersionIsAccountedFor(scan, os[..n], o);
      FilterConcat((e: Emitted) => About(e, o), EmittedForAll(scan, os[..n]), EmittedFor(scan, os[n]));
      FilterAllAbout(EmittedFor(scan, os[n]), os[n], o);
    }
  }

  lemma {:induction false} FilterAllAbout(es: seq<Emitted>, x: Observed, o: Observed)
    requires forall e :: e in es ==> e.seen == x
    ensures Filter((e: Emitted) => About(e, o), es) == if x == o then es else []
  {
    if es != [] {
      var n := |es| - 1;
      SplitLast(es);
      FilterAllAbout(es[..n], x, o);
      FilterStep((e: Emitted) => About(e, o), es[..n], es[n]);
    }
  }
}
