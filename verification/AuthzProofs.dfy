/** What the gate and its log promise, for every request and every run. */
module AuthzProofs {
  import opened Text
  import opened Ordering
  import opened Findings
  import opened Authz
  import opened AuthzGate

  // ----- what a decision is made of -----

  lemma {:induction false} SiftSplits(net: Net, scope: seq<string>, ts: seq<string>)
    ensures multiset(Accepted(net, scope, ts)) + multiset(MapSeq(TargetOf, SkippedOf(net, scope, ts))) == multiset(ts)
    ensures forall x :: x in SkippedOf(net, scope, ts) ==> Refusal(net, scope, x.target) == Some(x.reason)
  {
    hide Refusal;
    if ts != [] {
      var t := ts[|ts| - 1];
      SplitLast(ts);
      SiftSplits(net, scope, ts[..|ts| - 1]);
      FilterStep(Clears(net, scope), ts[..|ts| - 1], t);
      SkippedStep(net, scope, ts[..|ts| - 1], t);
      if Refusal(net, scope, t).Some? {
        MapSnoc(TargetOf, SkippedOf(net, scope, ts[..|ts| - 1]), Skipped(t, Refusal(net, scope, t).value));
      }
    }
  }

  predicate ReachesGuard(req: Request) {
    CleanedSet(req.targets) != {} && TrimSpace(req.operator) != "" && req.confirmed
    && CleanedSet(req.targets) == CleanedSet(req.confirm)
  }

  predicate Allows(net: Net, req: Request) {
    ReachesGuard(req) && exists t :: t in CleanedSet(req.targets) && Clears(net, Normalise(req.scope))(t)
  }

  lemma GuardReached(req: Request)
    ensures ReachesGuard(req)
            <==> Normalise(req.targets) != [] && TrimSpace(req.operator) != "" && req.confirmed
                 && Normalise(req.targets) == Normalise(req.confirm)
  {
    hide Normalise, CleanedSet, TrimSpace;
    NormaliseIsCanonical(req.targets, req.confirm);
    NormaliseMembers(req.targets);
    if Normalise(req.targets) != [] {
      assert Normalise(req.targets)[0] in Normalise(req.targets);
    } else {
      assert CleanedSet(req.targets) == {};
    }
  }

  /** The gate allows a request exactly when an operator is named, the statement was accepted, the targets
      were re-entered as the same set, and one of them is assessable and in scope. */
  lemma GateAllowsExactly(hash: string -> string, net: Net, es: seq<Record>, req: Request, now: int)
    ensures Decide(hash, net, es, req, now).Allowed? <==> Allows(net, req)
  {
    hide Normalise, CleanedSet, TrimSpace, Refusal, Linked, SkippedOf;
    GuardReached(req);
    NormaliseMembers(req.targets);
    var scope := Normalise(req.scope);
    var a := Accepted(net, scope, Normalise(req.targets));
    if a != [] {
      assert a[0] in a;
    }
  }

  /** Nothing is dropped silently: past the form checks, every target is either accepted or listed with the
      reason it was refused for, once, and the accepted ones are recorded. */
  lemma GateSplitsTargets(hash: string -> string, net: Net, es: seq<Record>, req: Request, now: int)
    requires ReachesGuard(req)
    ensures var d := Decide(hash, net, es, req, now);
            var accepted := if d.Allowed? then d.accepted else [];
            var skipped := if d.Allowed? then d.skipped else d.dropped;
            && multiset(accepted) + multiset(MapSeq(TargetOf, skipped)) == multiset(CleanedSet(req.targets))
            && Sorted(StrLeq, accepted)
            && (forall t :: t in accepted ==> Refusal(net, Normalise(req.scope), t) == None)
            && (forall x :: x in skipped ==> x.reason != "" && Refusal(net, Normalise(req.scope), x.target) == Some(x.reason))
            && (d.Allowed? ==> accepted != [] && d.record.targets == accepted && d.record.scope == Normalise(req.scope)
                               && d.record.operator != "" && d.record.at == now)
  {
    hide Normalise, CleanedSet, TrimSpace, Refusal, StrLeq, HashedText;
    GuardReached(req);
    var ts := Normalise(req.targets);
    var scope := Normalise(req.scope);
    NormaliseMembers(req.targets);
    SiftSplits(net, scope, ts);
    BagOfSet(ts, CleanedSet(req.targets));
    FilterKeepsSorted(Clears(net, scope), ts);
  }

  lemma BagOfSet(s: seq<string>, z: set<string>)
    requires NoDuplicates(s) && forall x :: x in s <==> x in z
    ensures multiset(s) == multiset(z)
  {
    forall x ensures multiset(s)[x] == multiset(z)[x] {
      CountNoDuplicates(s, x);
    }
  }

  lemma {:induction false} FilterKeepsSorted(p: string -> bool, s: seq<string>)
    requires Sorted(StrLeq, s)
    ensures Sorted(StrLeq, Filter(p, s))
  {
    hide Filter;
    hide StrLeq;
    if s != [] {
      var n := |s| - 1;
      SplitLast(s);
      FilterKeepsSorted(p, s[..n]);
      FilterStep(p, s[..n], s[n]);
      var r := Filter(p, s[..n]);
      forall i | 0 <= i < |r| ensures StrLeq(r[i], s[n]) {
        assert r[i] in s[..n];
        var k :| 0 <= k < n && s[..n][k] == r[i];
        assert StrLeq(s[k], s[n]);
      }
    }
  }

  /** Order, repeats, case and surrounding blanks of the three lists do not matter. */
  lemma GateIgnoresOrder(hash: string -> string, net: Net, es: seq<Record>, a: Request, b: Request, now: int)
    requires CleanedSet(a.targets) == CleanedSet(b.targets)
    requires CleanedSet(a.confirm) == CleanedSet(b.confirm)
    requires CleanedSet(a.scope) == CleanedSet(b.scope)
    requires a.operator == b.operator && a.statement == b.statement && a.confirmed == b.confirmed
    ensures Decide(hash, net, es, a, now) == Decide(hash, net, es, b, now)
  {
    hide Normalise, CleanedSet, Accepted, SkippedOf, Linked, TrimSpace;
    NormaliseIsCanonical(a.targets, b.targets);
    NormaliseIsCanonical(a.confirm, b.confirm);
    NormaliseIsCanonical(a.scope, b.scope);
  }

  /** What the gate cleared it clears again, whole: resubmitting the accepted list skips nothing. */
  lemma ClearedAgain(hash: string -> string, net: Net, es: seq<Record>, later: seq<Record>, req: Request, now: int, again: int)
    requires Decide(hash, net, es, req, now).Allowed?
    ensures var d := Decide(hash, net, es, req, now);
            var e := Decide(hash, net, later, req.(targets := d.accepted, confirm := d.accepted), again);
            e.Allowed? && e.accepted == d.accepted && e.skipped == []
  {
    hide Normalise, TrimSpace, Refusal, Linked, StrLeq, NoDuplicates;
    var ts := Normalise(req.targets);
    var scope := Normalise(req.scope);
    var a := Accepted(net, scope, ts);
    AcceptedIsNormal(net, scope, req.targets);
    AllAccepted(net, scope, a);
  }

  lemma CanonicalIsNormal(l: seq<string>)
    requires Sorted(StrLeq, l) && NoDuplicates(l)
    requires forall x :: x in l ==> Clean(x) == x && x != ""
    ensures Normalise(l) == l
  {
    hide Normalise, StrLeq, Clean;
    NormaliseMembers(l);
    forall s ensures s in Normalise(l) <==> s in l {
      if s in l {
        assert Clean(s) in CleanedSet(l);
      }
    }
    SameSetSameMultiset(Normalise(l), l);
    StrOrder();
    SortedUnique(StrLeq, Normalise(l), l);
  }

  lemma AcceptedIsNormal(net: Net, scope: seq<string>, xs: seq<string>)
    ensures var a := Accepted(net, scope, Normalise(xs)); Normalise(a) == a
  {
    hide Normalise, Refusal, StrLeq, Clean, NoDuplicates;
    var ts := Normalise(xs);
    var a := Accepted(net, scope, ts);
    NormaliseMembers(xs);
    FilterKeepsSorted(Clears(net, scope), ts);
    FilterNoDuplicates(Clears(net, scope), ts);
    forall x | x in a ensures Clean(x) == x && x != "" {
      CleanOfNormal(xs, x);
    }
    CanonicalIsNormal(a);
  }

  lemma CleanOfNormal(xs: seq<string>, x: string)
    requires x in Normalise(xs)
    ensures Clean(x) == x && x != ""
  {
    hide Normalise, Clean;
    NormaliseMembers(xs);
    var y :| y in xs && Clean(y) == x;
    CleanIdempotent(y);
  }

  lemma {:induction false} AllAccepted(net: Net, scope: seq<string>, ts: seq<string>)
    requires forall t :: t in ts ==> Clears(net, scope)(t)
    ensures Accepted(net, scope, ts) == ts && SkippedOf(net, scope, ts) == []
  {
    hide Refusal;
    if ts != [] {
      var n := |ts| - 1;
      SplitLast(ts);
      AllAccepted(net, scope, ts[..n]);
      FilterStep(Clears(net, scope), ts[..n], ts[n]);
      SkippedStep(net, scope, ts[..n], ts[n]);
    }
  }

  // ----- whole runs -----

  datatype Event = Appended(r: Record) | Gated(req: Request, now: int)

  function LogStep(hash: string -> string, net: Net, es: seq<Record>, e: Event): seq<Record> {
    match e
    case Appended(r) => es + [Linked(hash, es, r)]
    case Gated(req, now) =>
      var d := Decide(hash, net, es, req, now);
      es + if d.Allowed? then [d.record] else []
  }

  function LogRun(hash: string -> string, net: Net, events: seq<Event>): seq<Record> {
    if events == [] then []
    else LogStep(hash, net, LogRun(hash, net, events[..|events| - 1]), events[|events| - 1])
  }

  lemma StepVerifies(hash: string -> string, net: Net, es: seq<Record>, e: Event)
    requires Verifies(hash, es)
    ensures Verifies(hash, LogStep(hash, net, es, e)) && es <= LogStep(hash, net, es, e)
  {
    hide Verifies, Normalise, Accepted, SkippedOf, TrimSpace, Linked;
    match e
    case Appended(r) =>
      LinkedOnce(hash, es, r);
      VerifiesSnoc(hash, es, Linked(hash, es, r));
    case Gated(req, now) =>
      var d := Decide(hash, net, es, req, now);
      if d.Allowed? {
        LinkedOnce(hash, es, Record(TrimSpace(req.operator), TrimSpace(req.statement), d.accepted, Normalise(req.scope), now, "", ""));
        VerifiesSnoc(hash, es, d.record);
      } else {
        assert es + [] == es;
      }
  }

  /** Every reachable log verifies, and what was recorded stays recorded. */
  lemma {:induction false} ReachableLogVerifies(hash: string -> string, net: Net, events: seq<Event>, k: nat)
    requires k <= |events|
    ensures Verifies(hash, LogRun(hash, net, events))
    ensures LogRun(hash, net, events[..k]) <= LogRun(hash, net, events)
    decreases |events|
  {
    hide Verifies, LogStep;
    if events == [] {
      assert Verifies(hash, []) by { VerifiesEmpty(hash); }
      assert events[..k] == events;
    } else {
      var n := |events| - 1;
      ReachableLogVerifies(hash, net, events[..n], if k <= n then k else n);
      StepVerifies(hash, net, LogRun(hash, net, events[..n]), events[n]);
      if k <= n {
        assert events[..n][..k] == events[..k];
      } else {
        assert events[..k] == events;
      }
    }
  }

  lemma VerifiesEmpty(hash: string -> string)
    ensures Verifies(hash, [])
  {
  }

  /** Request fields that cannot be mistaken for the separators of the hashed text. */
  predicate PlainRequest(req: Request) {
    NUL !in req.operator && NUL !in req.statement
    && (forall s :: s in req.targets ==> ',' !in s && NUL !in s)
    && (forall s :: s in req.scope ==> ',' !in s && NUL !in s)
  }

  lemma PlainRequestPlainRecord(hash: string -> string, net: Net, es: seq<Record>, req: Request, now: int)
    requires HexDigest(hash) && Verifies(hash, es) && PlainRequest(req)
    requires Decide(hash, net, es, req, now).Allowed?
    ensures Plain(Decide(hash, net, es, req, now).record)
  {
    hide Normalise, Refusal, HashedText, TrimSpace, SkippedOf;
    NormalisePlain(req.targets);
    NormalisePlain(req.scope);
    var d := Decide(hash, net, es, req, now);
    assert NUL !in d.record.prevHash by {
      if es != [] {
        assert HashHolds(hash, es[|es| - 1]);
      }
    }
    assert "" !in d.accepted && "" in [""];
  }

  lemma NormalisePlain(xs: seq<string>)
    requires forall s :: s in xs ==> ',' !in s && NUL !in s
    ensures forall s :: s in Normalise(xs) ==> s != "" && ',' !in s && NUL !in s
    ensures PlainList(Normalise(xs))
  {
    hide Normalise, TrimSpace;
    NormaliseMembers(xs);
    assert "" !in Normalise(xs);
    assert "" in [""];
    forall s | s in Normalise(xs) ensures s != "" && ',' !in s && NUL !in s {
      var x :| x in xs && Clean(x) == s;
      assert forall c :: c in s ==> c in Lower(x);
      assert forall c :: c in Lower(x) ==> exists i :: 0 <= i < |x| && c == LowerChar(x[i]);
    }
  }

  lemma {:induction false} GatedLogIsPlain(hash: string -> string, net: Net, events: seq<Event>)
    requires HexDigest(hash)
    requires forall e :: e in events ==> e.Gated? && PlainRequest(e.req)
    ensures AllPlain(LogRun(hash, net, events))
  {
    hide Verifies, Decide, Plain, PlainRequest;
    if events != [] {
      var n := |events| - 1;
      var e := events[n];
      assert e in events;
      GatedLogIsPlain(hash, net, events[..n]);
      ReachableLogVerifies(hash, net, events[..n], n);
      var d := Decide(hash, net, LogRun(hash, net, events[..n]), e.req, e.now);
      if d.Allowed? {
        PlainRequestPlainRecord(hash, net, LogRun(hash, net, events[..n]), e.req, e.now);
      }
    }
  }

  /** Two runs of the gate that end in one tip recorded the same events, whatever was asked of them. */
  lemma TipProvesTheHistory(hash: string -> string, net: Net, a: seq<Event>, b: seq<Event>)
    requires HexDigest(hash)
    requires forall e :: e in a ==> e.Gated? && PlainRequest(e.req)
    requires forall e :: e in b ==> e.Gated? && PlainRequest(e.req)
    requires NoCollision(hash, LogRun(hash, net, a), LogRun(hash, net, b))
    ensures Tip(LogRun(hash, net, a)) == Tip(LogRun(hash, net, b)) <==> LogRun(hash, net, a) == LogRun(hash, net, b)
  {
    hide *;
    GatedLogIsPlain(hash, net, a);
    GatedLogIsPlain(hash, net, b);
    ReachableLogVerifies(hash, net, a, 0);
    ReachableLogVerifies(hash, net, b, 0);
    SameTipSameLog(hash, LogRun(hash, net, a), LogRun(hash, net, b));
  }

  // ----- a comma inside a target -----

  const NAMES_ONLY := Net(_ => false, _ => false, _ => false, _ => false, (_, _) => false)

  function Ask(targets: seq<string>): Request { Request("o", "", targets, targets, [], true) }

  lemma AlreadyClean(s: string)
    requires s != "" && forall c :: c in s ==> 'a' <= c <= 'z' || c == '/' || c == ','
    ensures Clean(s) == s
  {
    hide TrimSpace, TrimLeft, TrimRight;
    assert s[0] in s && s[|s| - 1] in s;
    forall i | 0 <= i < |s| ensures LowerChar(s[i]) == s[i] {
      assert s[i] in s;
    }
    assert Lower(s) == s;
    assert Trimmed(s);
  }

  lemma OneLetterHost(t: string)
    requires t == "a/" || t == "b" || t == "a/,b"
    ensures HostName(t) == t[..1] && Clean(t) == t
  {
    hide Clean, IndexOfPart;
    AlreadyClean(t);
    NoScheme(t);
    assert IndexOfAny(t, "/?#") == 1;
    assert AfterLast(t[..1], '@') == t[..1];
    assert IndexOfAny(t[..1], ":") == 1;
  }

  lemma ClearedTarget(t: string)
    requires t == "a/" || t == "b" || t == "a/,b"
    ensures Clears(NAMES_ONLY, [])(t)
  {
    hide HostName, Clean;
    OneLetterHost(t);
  }

  lemma AskedIsAccepted(l: seq<string>)
    requires l == ["a/,b"] || l == ["a/", "b"]
    ensures Normalise(l) == l && Accepted(NAMES_ONLY, [], l) == l
  {
    hide Normalise, HostName, Clean, Clears;
    forall x | x in l ensures Clean(x) == x && x != "" && Clears(NAMES_ONLY, [])(x) {
      OneLetterHost(x);
      ClearedTarget(x);
    }
    CanonicalIsNormal(l);
    AllAccepted(NAMES_ONLY, [], l);
  }

  /** Why list entries must not hold a comma: one target and two targets leave the same evidence, whatever
      the digest. */
  lemma CommaTargetsLeaveOneHash(hash: string -> string, now: int)
    ensures var d := Decide(hash, NAMES_ONLY, [], Ask(["a/,b"]), now);
            var e := Decide(hash, NAMES_ONLY, [], Ask(["a/", "b"]), now);
            d.Allowed? && e.Allowed? && d.accepted != e.accepted && d.record.entryHash == e.record.entryHash
  {
    hide Decide, HashedText;
    AskedIsRecorded(hash, ["a/,b"], now);
    AskedIsRecorded(hash, ["a/", "b"], now);
    SameText(now);
  }

  function AskedRecord(l: seq<string>, now: int): Record { Record("o", "", l, [], now, "", "") }

  lemma AskedIsRecorded(hash: string -> string, l: seq<string>, now: int)
    requires l == ["a/,b"] || l == ["a/", "b"]
    ensures var d := Decide(hash, NAMES_ONLY, [], Ask(l), now);
            d.Allowed? && d.accepted == l && d.record.entryHash == hash(HashedText(AskedRecord(l, now)))
  {
    hide Normalise, Accepted, SkippedOf, Clears, HashedText, Linked, TrimSpace;
    AskedIsAccepted(l);
    CanonicalIsNormal([]);
    ShortTexts();
    LinkedFirst(hash, AskedRecord(l, now));
  }

  lemma LinkedFirst(hash: string -> string, r: Record)
    requires r.prevHash == ""
    ensures Linked(hash, [], r) == r.(entryHash := hash(HashedText(r)))
  {
    hide HashedText;
    assert r.(prevHash := "") == r;
  }

  lemma ShortTexts()
    ensures TrimSpace("o") == "o" && TrimSpace("") == ""
  {
    assert Trimmed("o") && Trimmed("");
  }

  lemma SameText(now: int)
    ensures HashedText(AskedRecord(["a/,b"], now)) == HashedText(AskedRecord(["a/", "b"], now))
  {
    assert Join(["a/", "b"], ',') == "a/" + "," + Join(["b"], ',') == "a/,b";
    assert Join(["a/,b"], ',') == "a/,b";
    assert Fields(AskedRecord(["a/,b"], now)) == Fields(AskedRecord(["a/", "b"], now));
  }
}
