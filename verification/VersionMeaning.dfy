/** internal/adapters/vulnsig.go: which versions are seen, how they are read, and when one is reported as affected. */
module VersionMeaning {
  import opened Text
  import opened Ordering
  import opened Findings
  import opened Versions

  // ----- reading a dotted version -----

  function Dotted(ns: seq<nat>): string { Join(MapSeq(Digits, ns), '.') }

  lemma NumberOfDigits(n: nat)
    requires n <= MAX_INT
    ensures NumberOf(Digits(n)) == n
  {
    hide Digits;
    var d := Digits(n);
    var k := DigitPrefix(d);
    forall i | 0 <= i < |d| ensures IsDigit(d[i]) {
      assert d[i] in d;
    }
    assert d[..k] == d;
    ValueOfDigits(n);
  }

  /** A component is read as the number its leading digits write, and as zero without any or past the largest int. */
  lemma NumberMeans(digits: string, rest: string)
    requires (forall c :: c in digits ==> IsDigit(c)) && (rest == "" || !IsDigit(rest[0]))
    ensures NumberOf(digits + rest) == if digits == "" || Value(digits) > 9223372036854775807 then 0 else Value(digits)
  {
    hide Value;
    var p := digits + rest;
    forall i | 0 <= i < |digits| ensures IsDigit(p[i]) {
      assert p[i] == digits[i] && digits[i] in digits;
    }
    var k := DigitPrefix(p);
    if k < |digits| {
      assert false;
    }
    assert k == |digits| by {
      if k > |digits| {
        StopsAt(p, |digits|);
        assert false;
      }
    }
    assert p[..k] == digits;
    assert Value("") == 0 by { NoDigits(); }
  }

  lemma StopsAt(p: string, i: nat)
    requires i < DigitPrefix(p)
    ensures IsDigit(p[i])
  {
    assert p[..DigitPrefix(p)][i] in p[..DigitPrefix(p)];
  }

  lemma NoDigits()
    ensures Value("") == 0
  {
  }

  lemma {:induction false} DottedChars(ns: seq<nat>)
    requires ns != []
    ensures Dotted(ns) != "" && forall c :: c in Dotted(ns) ==> IsDigit(c) || c == '.'
    ensures var d := Dotted(ns); IsDigit(d[0]) && IsDigit(d[|d| - 1])
  {
    hide Digits;
    var ds := MapSeq(Digits, ns);
    assert ds[0] == Digits(ns[0]) && ds[0][0] in ds[0] && ds[0][|ds[0]| - 1] in ds[0];
    if |ns| > 1 {
      assert ds[1..] == MapSeq(Digits, ns[1..]);
      DottedChars(ns[1..]);
      var rest := Dotted(ns[1..]);
      var d := Dotted(ns);
      assert d == ds[0] + ['.'] + rest;
      assert d[|d| - 1] == rest[|rest| - 1];
    }
  }

  /** A version written as numbers and dots is read as those numbers. */
  lemma ReadsDotted(ns: seq<nat>)
    requires ns != [] && forall i :: 0 <= i < |ns| ==> ns[i] <= MAX_INT
    ensures Components(Dotted(ns)) == ns
  {
    hide Digits, NumberOf, TrimSpace, Split, Join;
    var ds := MapSeq(Digits, ns);
    var d := Dotted(ns);
    DottedChars(ns);
    assert TrimSpace(d) == d by { assert Trimmed(d); }
    forall p | p in ds ensures '.' !in p {
      var i :| 0 <= i < |ds| && ds[i] == p;
      assert p == Digits(ns[i]);
    }
    SplitJoin(ds, '.');
    assert Split(d, '.') == ds;
    forall i | 0 <= i < |ns| ensures NumberOf(ds[i]) == ns[i] {
      NumberOfDigits(ns[i]);
    }
    assert MapSeq(NumberOf, ds) == ns;
  }

  // ----- what is seen -----

  ghost predicate SeenIn(scan: Scan, e: Evidence, port: int, o: Observed) {
    e.kind in ["banner", "header", "fingerprint", "http"]
    && exists m :: m in scan.mentions(e.value) && Lower(m.token) in scan.aliases
                   && o == Observed(scan.aliases[Lower(m.token)], m.version, port)
  }

  lemma {:induction false} MentionsMean(scan: Scan, ms: seq<Mention>, port: int, o: Observed)
    ensures o in InMentions(scan, ms, port) <==>
            exists m :: m in ms && Lower(m.token) in scan.aliases && o == Observed(scan.aliases[Lower(m.token)], m.version, port)
  {
    hide Lower;
    if ms != [] {
      SplitLast(ms);
      MentionsMean(scan, ms[..|ms| - 1], port, o);
    }
  }

  lemma {:induction false} EvidenceMeans(scan: Scan, es: seq<Evidence>, port: int, o: Observed)
    ensures o in InEvidence(scan, es, port) <==> exists e :: e in es && SeenIn(scan, e, port, o)
  {
    hide InMentions;
    if es != [] {
      var n := |es| - 1;
      SplitLast(es);
      EvidenceMeans(scan, es[..n], port, o);
      MentionsMean(scan, scan.mentions(es[n].value), port, o);
      assert Telling(es[n]) && o in InMentions(scan, scan.mentions(es[n].value), port) <==> SeenIn(scan, es[n], port, o);
    }
  }

  /** A version is seen exactly where a banner, header, fingerprint or page of the target puts it next to a known name. */
  lemma {:induction false} SightingsMean(scan: Scan, prior: seq<Finding>, target: string, o: Observed)
    ensures o in Sightings(scan, prior, target) <==>
            exists f, e :: f in prior && f.target == target && e in f.evidence && SeenIn(scan, e, f.port, o)
  {
    hide InEvidence, SeenIn;
    if prior != [] {
      var n := |prior| - 1;
      SplitLast(prior);
      SightingsMean(scan, prior[..n], target, o);
      EvidenceMeans(scan, prior[n].evidence, prior[n].port, o);
    }
  }

  // ----- what is reported -----

  /** The signature is about the product, and the version lies below its upper end and not below its lower one. */
  ghost predicate Concerns(sig: Signature, o: Observed) {
    && sig.product == o.product && Less(Components(o.version), Components(sig.below))
    && (sig.atLeast == "" || !Less(Components(o.version), Components(sig.atLeast)))
  }

  /** A version is reported as affected by exactly the signatures that concern it, and noted exactly when there is none. */
  lemma ReportMeans(scan: Scan, o: Observed, sig: Signature)
    ensures Affected(o, sig) in EmittedFor(scan, o) <==> sig in scan.signatures && Concerns(sig, o)
    ensures Noted(o) in EmittedFor(scan, o) <==> forall s :: s in scan.signatures ==> !Concerns(s, o)
  {
    hide Components, Less, Filter;
    forall s: Signature ensures Matches(s, o.product, o.version) <==> Concerns(s, o) {
      Trichotomy(Components(o.version), Components(s.below));
      Trichotomy(Components(o.version), Components(s.atLeast));
    }
    var ms := Filter(MatchesOf(o), scan.signatures);
    if ms == [] {
      assert forall s :: s in scan.signatures && Concerns(s, o) ==> s in ms;
    } else {
      assert ms[0] in ms;
      var r := MapSeq((s: Signature) => Affected(o, s), ms);
      if sig in ms {
        var i :| 0 <= i < |ms| && ms[i] == sig;
        assert r[i] == Affected(o, sig);
      }
      if Affected(o, sig) in r {
        var i :| 0 <= i < |r| && r[i] == Affected(o, sig);
        assert ms[i] == sig;
      }
    }
  }
}
