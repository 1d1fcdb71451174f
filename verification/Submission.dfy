/** internal/orchestrator/orchestrator.go: turning a request into a job record, behind the gate. */
module Submission {
  import opened Text
  import opened Ordering
  import opened Findings
  import opened Records
  import opened RunnerLoop
  import Authz
  import AuthzGate
  import AuthzProofs

  datatype Caps = Caps(known: seq<string>, profiles: seq<string>, maxTargets: int, maxActive: int, tier: string)

  predicate Unlimited(n: int) { n == 0 }

  datatype Submit = Submit(workspace: string, profile: string, definitionId: string, trigger: string, request: AuthzGate.Request)

  datatype Outcome =
    | NotOffered(reason: string)                 // the tier does not allow it: no job, nothing logged
    | Turned(job: Job, reason: string)           // the gate refused: a terminal job says why
    | Accepted(job: Job, targets: seq<string>)   // queued, to be run on these targets
    | NotCreated                                 // the job record could not be written

  const TRIGGER_MANUAL := "manual"

  function FirstNonEmpty(a: string, b: string): string { if a != "" then a else b }

  function TierRefusal(caps: Caps, s: Submit, active: nat): Option<string> {
    if s.profile !in caps.known then Some("Unknown profile.")
    else if s.profile !in caps.profiles then Some("The profile is not available on this tier.")
    else if !Unlimited(caps.maxTargets) && |s.request.targets| > caps.maxTargets then Some("Too many targets for this tier.")
    else if !Unlimited(caps.maxActive) && active >= caps.maxActive then Some("Too many jobs are already running.")
    else None
  }

  function InScopeOutcome(t: string): TargetOutcome { TargetOutcome(t, false, "", false, true, 0) }

  function SkippedOutcome(s: AuthzGate.Skipped): TargetOutcome { TargetOutcome(s.target, false, s.reason, false, false, 0) }

  method Outcomes(accepted: seq<string>, skipped: seq<AuthzGate.Skipped>) returns (os: seq<TargetOutcome>)
    ensures os == MapSeq(InScopeOutcome, accepted) + MapSeq(SkippedOutcome, skipped)
  {
    os := [];
    for i := 0 to |accepted|
      invariant os == MapSeq(InScopeOutcome, accepted[..i])
    {
      TakeNext(accepted, i);
      MapSnoc(InScopeOutcome, accepted[..i], accepted[i]);
      os := os + [InScopeOutcome(accepted[i])];
    }
    assert accepted[..|accepted|] == accepted;
    ghost var first := os;
    for i := 0 to |skipped|
      invariant os == first + MapSeq(SkippedOutcome, skipped[..i])
    {
      TakeNext(skipped, i);
      MapSnoc(SkippedOutcome, skipped[..i], skipped[i]);
      os := os + [SkippedOutcome(skipped[i])];
    }
    assert skipped[..|skipped|] == skipped;
  }

  lemma NamesOfOutcomes(accepted: seq<string>, skipped: seq<AuthzGate.Skipped>)
    ensures TargetNames(MapSeq(InScopeOutcome, accepted) + MapSeq(SkippedOutcome, skipped))
            == accepted + MapSeq(AuthzGate.TargetOf, skipped)
  {
  }

  lemma OutcomesSubmitted(accepted: seq<string>, skipped: seq<AuthzGate.Skipped>)
    requires NoDuplicates(accepted + MapSeq(AuthzGate.TargetOf, skipped))
    ensures RunnerLoop.Submitted(MapSeq(InScopeOutcome, accepted) + MapSeq(SkippedOutcome, skipped), accepted)
  {
    var a, b := MapSeq(InScopeOutcome, accepted), MapSeq(SkippedOutcome, skipped);
    NamesOfOutcomes(accepted, skipped);
    var names := TargetNames(a + b);
    forall o: TargetOutcome | o in a + b ensures o.findings == 0 && !o.processed && (o.inScope <==> o.target in accepted) {
      if o in a {
        var i :| 0 <= i < |a| && a[i] == o;
      } else {
        var j :| 0 <= j < |b| && b[j] == o;
        SkippedNotAccepted(accepted, skipped, j);
      }
    }
    forall t | t in accepted ensures t in names {
      var i :| 0 <= i < |accepted| && accepted[i] == t;
      assert names[i] == t;
    }
  }

  /** The outcomes of an allowed request satisfy what the run relies on, and name every requested target once. */
  lemma AllowedOutcomes(hash: string -> string, net: AuthzGate.Net, es: seq<Authz.Record>, req: AuthzGate.Request, now: int)
    requires AuthzGate.Decide(hash, net, es, req, now).Allowed?
    ensures var d := AuthzGate.Decide(hash, net, es, req, now);
            var os := MapSeq(InScopeOutcome, d.accepted) + MapSeq(SkippedOutcome, d.skipped);
            RunnerLoop.Submitted(os, d.accepted) && multiset(TargetNames(os)) == multiset(Authz.CleanedSet(req.targets))
  {
    hide AuthzGate.Decide, Authz.CleanedSet, AuthzGate.Refusal, AuthzProofs.ReachesGuard, Authz.Normalise, RunnerLoop.Submitted;
    var d := AuthzGate.Decide(hash, net, es, req, now);
    AuthzProofs.GateAllowsExactly(hash, net, es, req, now);
    AuthzProofs.GateSplitsTargets(hash, net, es, req, now);
    NamesOfOutcomes(d.accepted, d.skipped);
    OnceEach(d.accepted + MapSeq(AuthzGate.TargetOf, d.skipped), Authz.CleanedSet(req.targets));
    OutcomesSubmitted(d.accepted, d.skipped);
  }

  lemma OnceEach(s: seq<string>, z: set<string>)
    requires multiset(s) == multiset(z)
    ensures NoDuplicates(s)
  {
    forall i, j | 0 <= i < j < |s| ensures s[i] != s[j] {
      if s[i] == s[j] {
        TwiceCounted(s, i, j);
      }
    }
  }

  lemma SkippedNotAccepted(accepted: seq<string>, skipped: seq<AuthzGate.Skipped>, j: nat)
    requires NoDuplicates(accepted + MapSeq(AuthzGate.TargetOf, skipped)) && j < |skipped|
    ensures skipped[j].target !in accepted
  {
    var names := accepted + MapSeq(AuthzGate.TargetOf, skipped);
    forall i | 0 <= i < |accepted| ensures accepted[i] != skipped[j].target {
      assert names[i] != names[|accepted| + j];
    }
  }

  function EmptyJob(s: Submit, caps: Caps, id: string, now: int): Job {
    Job(id, FirstNonEmpty(s.workspace, "default"), s.profile, s.definitionId, "", FirstNonEmpty(s.trigger, TRIGGER_MANUAL),
        Queued, now, ZERO_TIME, ZERO_TIME, "", NO_AUTHZ, [], [], 0, "authorisation", 0, 0, caps.tier)
  }

  /** What the tier and the profile allow: a known profile the tier offers, and no more targets and running jobs than
      its limits, zero meaning none. */
  predicate TierAllows(caps: Caps, s: Submit, active: nat) {
    && s.profile in caps.known && s.profile in caps.profiles
    && (caps.maxTargets == 0 || |s.request.targets| <= caps.maxTargets)
    && (caps.maxActive == 0 || active < caps.maxActive)
  }

  /** What every job record says about the request it was made for. */
  predicate Filed(j: Job, s: Submit, caps: Caps, id: string, now: int) {
    && j.id == id && j.profile == s.profile && j.definitionId == s.definitionId && j.tier == caps.tier
    && j.workspace == (if s.workspace == "" then "default" else s.workspace)
    && j.trigger == (if s.trigger == "" then "manual" else s.trigger)
    && j.created == now && j.started == ZERO_TIME && j.baselineJobId == ""
    && j.adapters == [] && j.findingsTotal == 0 && j.findingsShown == 0
  }

  /** The authorisation a queued job carries is the entry the log was given, made out to the operator of the request. */
  predicate Authorised(a: AuthzRecord, req: AuthzGate.Request, targets: seq<string>, entry: Authz.Record, prev: string, now: int) {
    && a.operator == TrimSpace(req.operator) && a.statement == TrimSpace(req.statement)
    && a.targets == targets && a.scope == Authz.Normalise(req.scope) && a.confirmed && a.at == now
    && a.entryHash == entry.entryHash && a.prevHash == prev
    && entry == Authz.Record(a.operator, a.statement, a.targets, a.scope, now, prev, entry.entryHash)
  }

  /** A target is in scope and has no reason against it, or is out with the reason it was refused for. */
  predicate Explained(net: AuthzGate.Net, scope: seq<string>, o: TargetOutcome) {
    if o.inScope then o.reason == "" else AuthzGate.Refusal(net, scope, o.target) == Some(o.reason)
  }

  /** Validates the request, asks the gate, and builds the job record. Nothing reaches `Accepted` without an
      entry at the tip of the log that names exactly the targets to be run. */
  method SubmitJob(log: AuthzGate.Log, caps: Caps, s: Submit, active: nat, id: string, now: int, createOk: bool)
    returns (r: Outcome)
    modifies log
    ensures Authz.Verifies(log.hash, old(log.entries)) ==> Authz.Verifies(log.hash, log.entries)
    ensures r.NotOffered? <==> !TierAllows(caps, s, active)
    ensures r.NotOffered? ==> TierRefusal(caps, s, active) == Some(r.reason) && log.entries == old(log.entries)
    ensures TierAllows(caps, s, active) ==>
              var d := AuthzGate.Decide(log.hash, log.net, old(log.entries), s.request, now);
              && log.entries == old(log.entries) + (if d.Allowed? then [d.record] else [])
              && (r.NotCreated? <==> !createOk)
              && (r.Accepted? <==> createOk && AuthzProofs.Allows(log.net, s.request))
              && (r.Turned? <==> createOk && !AuthzProofs.Allows(log.net, s.request))
    ensures r.Accepted? ==>
              && Filed(r.job, s, caps, id, now) && r.job.state == Queued && r.job.progress == 0 && r.job.error == ""
              && r.job.phase == "authorisation" && r.job.finished == ZERO_TIME
              && RunnerLoop.Submitted(r.job.targets, r.targets)
              && multiset(TargetNames(r.job.targets)) == multiset(Authz.CleanedSet(s.request.targets))
              && (forall o :: o in r.job.targets ==> Explained(log.net, Authz.Normalise(s.request.scope), o))
              && log.entries != []
              && Authorised(r.job.authz, s.request, r.targets, log.entries[|log.entries| - 1], Authz.Tip(old(log.entries)), now)
    ensures r.Turned? ==>
              && Filed(r.job, s, caps, id, now) && r.job.state == JobState.Refused && r.job.progress == 100
              && r.job.error == r.reason && r.job.phase == "refused" && r.job.finished == now && r.job.authz == NO_AUTHZ
              && (forall o :: o in r.job.targets ==> Explained(log.net, Authz.Normalise(s.request.scope), o))
              && (AuthzProofs.ReachesGuard(s.request) ==>
                    multiset(TargetNames(r.job.targets)) == multiset(Authz.CleanedSet(s.request.targets)))
              && forall o :: o in r.job.targets ==> o.reason != "" && !o.inScope && !o.processed
  {
    hide AuthzGate.Decide, Authz.Verifies, AuthzProofs.Allows, AuthzProofs.ReachesGuard, RunnerLoop.Submitted, Authz.CleanedSet;
    hide Explained, Authz.Normalise, TrimSpace;
    var refusal := TierRefusal(caps, s, active);
    if refusal.Some? {
      return NotOffered(refusal.value);
    }
    ghost var before := log.entries;
    var d := log.Gate(s.request, now);
    AuthzProofs.GateAllowsExactly(log.hash, log.net, before, s.request, now);
    DecisionExplained(log.hash, log.net, before, s.request, now);
    var job := EmptyJob(s, caps, id, now);
    if !d.Allowed? {
      job := job.(state := JobState.Refused, error := d.reason, finished := now, progress := 100, phase := "refused");
      var os := Outcomes([], d.dropped);
      RefusedOutcomes(log.hash, log.net, before, s.request, now);
      job := job.(targets := os);
      if !createOk {
        return NotCreated;
      }
      return Turned(job, d.reason);
    }
    AllowedRecord(log.hash, log.net, before, s.request, now);
    job := job.(authz := AuthzRecord(d.record.operator, d.record.statement, d.record.targets, d.record.scope, true,
                                     d.record.at, d.record.entryHash, d.record.prevHash));
    var os := Outcomes(d.accepted, d.skipped);
    AllowedOutcomes(log.hash, log.net, before, s.request, now);
    job := job.(targets := os);
    if !createOk {
      return NotCreated;
    }
    return Accepted(job, d.accepted);
  }

  lemma AllowedRecord(hash: string -> string, net: AuthzGate.Net, es: seq<Authz.Record>, req: AuthzGate.Request, now: int)
    requires AuthzGate.Decide(hash, net, es, req, now).Allowed?
    ensures var d := AuthzGate.Decide(hash, net, es, req, now);
            var e := d.record;
            && e.targets == d.accepted && e.operator == TrimSpace(req.operator) && e.statement == TrimSpace(req.statement)
            && e.scope == Authz.Normalise(req.scope) && e.at == now && e.prevHash == Authz.Tip(es)
  {
    hide Authz.Normalise, AuthzGate.Accepted, AuthzGate.SkippedOf, TrimSpace, Authz.HashedText;
  }

  /** Accepted targets have nothing against them, skipped ones have their reason. */
  lemma OutcomesExplained(net: AuthzGate.Net, scope: seq<string>, accepted: seq<string>, skipped: seq<AuthzGate.Skipped>)
    requires forall x :: x in skipped ==> AuthzGate.Refusal(net, scope, x.target) == Some(x.reason)
    ensures forall o :: o in MapSeq(InScopeOutcome, accepted) + MapSeq(SkippedOutcome, skipped) ==> Explained(net, scope, o)
  {
    hide AuthzGate.Refusal;
    var a, b := MapSeq(InScopeOutcome, accepted), MapSeq(SkippedOutcome, skipped);
    forall o: TargetOutcome | o in a + b ensures Explained(net, scope, o) {
      if o !in a {
        var j :| 0 <= j < |b| && b[j] == o;
        assert skipped[j] in skipped;
      }
    }
  }

  lemma DecisionExplained(hash: string -> string, net: AuthzGate.Net, es: seq<Authz.Record>, req: AuthzGate.Request, now: int)
    ensures var d := AuthzGate.Decide(hash, net, es, req, now);
            var os := MapSeq(InScopeOutcome, if d.Allowed? then d.accepted else [])
                      + MapSeq(SkippedOutcome, if d.Allowed? then d.skipped else d.dropped);
            forall o :: o in os ==> Explained(net, Authz.Normalise(req.scope), o)
  {
    hide Authz.Normalise, AuthzGate.Refusal, TrimSpace, Explained, AuthzGate.Accepted, Authz.Linked;
    var scope := Authz.Normalise(req.scope);
    var d := AuthzGate.Decide(hash, net, es, req, now);
    AuthzProofs.SiftSplits(net, scope, Authz.Normalise(req.targets));
    OutcomesExplained(net, scope, if d.Allowed? then d.accepted else [], if d.Allowed? then d.skipped else d.dropped);
  }

  /** A refusal at the guard names every requested target and why; any other names none. */
  lemma RefusedOutcomes(hash: string -> string, net: AuthzGate.Net, es: seq<Authz.Record>, req: AuthzGate.Request, now: int)
    requires !AuthzGate.Decide(hash, net, es, req, now).Allowed?
    ensures var d := AuthzGate.Decide(hash, net, es, req, now);
            var os := MapSeq(InScopeOutcome, []) + MapSeq(SkippedOutcome, d.dropped);
            && (AuthzProofs.ReachesGuard(req) ==> multiset(TargetNames(os)) == multiset(Authz.CleanedSet(req.targets)))
            && forall o :: o in os ==> o.reason != "" && !o.inScope && !o.processed
  {
    hide Authz.CleanedSet, AuthzGate.Refusal, AuthzProofs.ReachesGuard, Authz.Normalise, AuthzGate.Accepted;
    var d := AuthzGate.Decide(hash, net, es, req, now);
    NamesOfOutcomes([], d.dropped);
    if AuthzProofs.ReachesGuard(req) {
      AuthzProofs.GateSplitsTargets(hash, net, es, req, now);
      assert [] + MapSeq(AuthzGate.TargetOf, d.dropped) == MapSeq(AuthzGate.TargetOf, d.dropped);
    }
  }
}
