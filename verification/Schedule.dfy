/** internal/schedule/schedule.go, internal/orchestrator/definition.go and the re-authorisation handler of
    internal/webui/definitions.go: the life of saved assessments. What submitting a run answers, and which
    definition writes succeed, are inputs (`Luck`). Every step is atomic and time is one monotone clock. */
module Schedule {
  import opened Text
  import opened Ordering
  import opened Findings
  import opened Records
  import opened Store

  type Definitions = map<string, Definition>

  /** The outcome of submitting the run, and of the first and second definition write of the step. */
  datatype Luck = Luck(job: Option<string>, refusal: string, firstWrite: bool, secondWrite: bool)

  /** What happened, in order: a person affirmed the authorisation, or a run was attempted; `kept` says whether the
      attempt left its mark on the definition. A manual attempt that is refused leaves no trace. */
  datatype Event =
    | Affirmed(id: string, at: int, days: int)
    | Attempted(id: string, at: int, scheduled: bool, started: bool, days: int, kept: bool)

  function Write(defs: Definitions, d: Definition, ok: bool): Definitions {
    if ok && d.id in defs then defs[d.id := d] else defs
  }

  /** `Write` is the stores' update: it is what the file store does, and the memory store when `ok`. */
  lemma WriteIsTheStores(s: FileState, m: MemState, d: Definition, ok: bool)
    requires SafeId(d.id)
    ensures FileStep(s, UpdateDefinition(d), ok).0.defs == Write(s.defs, d, ok)
    ensures FileStep(s, UpdateDefinition(d), ok).1 == Ack <==> ok && d.id in s.defs
    ensures MemStep(m, UpdateDefinition(d)).0.defs == Write(m.defs, d, true)
  {
  }

  // ----- running a definition -----

  datatype RunResult = NoDefinition | Declined(reason: string) | Ran(job: string) | RanUnrecorded(job: string)

  const DISABLED := "This assessment is disabled."

  /** Calendar text is left out: a day is printed as its number. */
  function Day(t: int): string { Itoa(t / DAY) }

  function LapsedText(d: Definition): string {
    "The authorisation for this assessment lapsed on " + Day(d.AuthorisationExpires()) + ". Re-affirm it before running again."
  }

  function Advanced(d: Definition, job: string, now: int): Definition {
    d.(lastRunId := job, lastRunAt := now, lastSkipReason := "",
       nextRunAt := if d.intervalDays > 0 then now + DAY * d.intervalDays else d.nextRunAt)
  }

  function RunResultOf(defs: Definitions, id: string, now: int, luck: Luck): RunResult {
    if id !in defs then NoDefinition
    else if !defs[id].enabled then Declined(DISABLED)
    else if !defs[id].AuthorisationValid(now) then Declined(LapsedText(defs[id]))
    else match luck.job
      case None => Declined(luck.refusal)
      case Some(j) => if luck.firstWrite then Ran(j) else RanUnrecorded(j)
  }

  function AfterRun(defs: Definitions, id: string, now: int, luck: Luck): Definitions
    requires forall i :: i in defs ==> defs[i].id == i
  {
    var r := RunResultOf(defs, id, now, luck);
    if r.Ran? then Write(defs, Advanced(defs[id], r.job, now), true) else defs
  }

  function RunEvents(defs: Definitions, id: string, now: int, scheduled: bool, luck: Luck): seq<Event> {
    match RunResultOf(defs, id, now, luck)
    case NoDefinition => []
    case Declined(_) => if scheduled then [Attempted(id, now, true, false, defs[id].intervalDays, luck.secondWrite)] else []
    case _ => [Attempted(id, now, scheduled, true, defs[id].intervalDays, luck.firstWrite || (scheduled && luck.secondWrite))]
  }

  // ----- one definition's turn in a tick -----

  predicate Due(d: Definition, now: int) {
    d.enabled && d.intervalDays > 0 && d.nextRunAt != ZERO_TIME && now >= d.nextRunAt
  }

  function LapseReason(d: Definition): string {
    "authorisation lapsed on " + Day(d.AuthorisationExpires()) + "; re-affirm it to resume scheduled runs"
  }

  function Pushed(d: Definition, reason: string, now: int): Definition {
    d.(lastSkipReason := "run refused: " + reason, nextRunAt := now + DAY * d.intervalDays)
  }

  function ErrorText(r: RunResult): string {
    match r
    case NoDefinition => "store: not found"
    case Declined(m) => m
    case _ => "orchestrator: update definition"
  }

  predicate Attempts(d: Definition, now: int) { Due(d, now) && d.AuthorisationValid(now) }

  function TurnDefs(defs: Definitions, d: Definition, now: int, luck: Luck): Definitions
    requires forall i :: i in defs ==> defs[i].id == i
  {
    if !Due(d, now) then defs
    else if !d.AuthorisationValid(now) then
      if d.lastSkipReason != LapseReason(d) then Write(defs, d.(lastSkipReason := LapseReason(d)), luck.firstWrite) else defs
    else
      var r := RunResultOf(defs, d.id, now, luck);
      var after := AfterRun(defs, d.id, now, luck);
      if r.Ran? then after else Write(after, Pushed(d, ErrorText(r), now), luck.secondWrite)
  }

  function TurnEvents(defs: Definitions, d: Definition, now: int, luck: Luck): seq<Event> {
    if Attempts(d, now) then RunEvents(defs, d.id, now, true, luck) else []
  }

  function TurnStarted(defs: Definitions, d: Definition, now: int, luck: Luck): nat {
    if Attempts(d, now) && RunResultOf(defs, d.id, now, luck).Ran? then 1 else 0
  }

  predicate Keyed(defs: Definitions) {
    forall i :: i in defs ==> defs[i].id == i
  }

  datatype TickState = TickState(defs: Definitions, history: seq<Event>, started: nat)

  ghost function Turn(s: TickState, d: Definition, now: int, luck: Luck): (t: TickState)
    requires Keyed(s.defs)
    ensures Keyed(t.defs) && t.defs.Keys == s.defs.Keys
  {
    TickState(TurnDefs(s.defs, d, now, luck), s.history + TurnEvents(s.defs, d, now, luck),
              s.started + TurnStarted(s.defs, d, now, luck))
  }

  ghost function Turns(s: TickState, listed: seq<Definition>, now: int, luck: string -> Luck): (t: TickState)
    requires Keyed(s.defs)
    ensures Keyed(t.defs) && t.defs.Keys == s.defs.Keys
  {
    if listed == [] then s
    else
      var d := listed[|listed| - 1];
      Turn(Turns(s, listed[..|listed| - 1], now, luck), d, now, luck(d.id))
  }

  lemma TurnsSnoc(s: TickState, listed: seq<Definition>, d: Definition, now: int, luck: string -> Luck)
    requires Keyed(s.defs)
    ensures Turns(s, listed + [d], now, luck) == Turn(Turns(s, listed, now, luck), d, now, luck(d.id))
  {
    var l := listed + [d];
    assert l[..|l| - 1] == listed && l[|l| - 1] == d;
  }

  // ----- saving -----

  datatype Caps = Caps(reassessment: bool, known: seq<string>, profiles: seq<string>, maxTargets: int, maxDefinitions: int)

  predicate Unlimited(n: int) { n == 0 }

  datatype SaveResult = Saved | SaveRefused(reason: string) | SaveFailed

  function SaveRefusal(caps: Caps, existing: nat, d: Definition): Option<string> {
    if !caps.reassessment then Some("Saved assessments and scheduling are available on the Pro and Team tiers.")
    else if d.profile !in caps.known then Some("Unknown profile.")
    else if d.profile !in caps.profiles then Some("The profile is not available on this tier.")
    else if TrimSpace(d.name) == "" then Some("Give the assessment a name, so its reports can be told apart.")
    else if d.targets == [] then Some("No targets were supplied.")
    else if TrimSpace(d.operator) == "" then Some("An operator name is required, so the authorisation can be attributed.")
    else if !Unlimited(caps.maxTargets) && |d.targets| > caps.maxTargets then Some("Too many targets for this tier.")
    else if !Unlimited(caps.maxDefinitions) && existing >= caps.maxDefinitions then Some("Too many saved assessments for this tier.")
    else None
  }

  const AFFIRMATION :=
    "I am authorised to assess the targets listed below, and I accept responsibility for this assessment."

  const RULE_CHANGE := "change"

  /** The definition that is stored: the authorisation clock starts now, the schedule one interval later. */
  function Fresh(d: Definition, id: string, now: int): Definition {
    d.(id := id, statement := AFFIRMATION, authorisedAt := now,
       authorisedFor := if d.authorisedFor <= 0 then DEFAULT_AUTHORISATION_DAYS else d.authorisedFor,
       workspace := if d.workspace == "" then "default" else d.workspace,
       notifyOn := if d.notifyOn == "" then RULE_CHANGE else d.notifyOn,
       enabled := true, created := now,
       nextRunAt := if d.intervalDays > 0 then now + DAY * d.intervalDays else d.nextRunAt)
  }

  function Reaffirmed(d: Definition, operator: string, days: int, now: int): Definition {
    d.(operator := operator, authorisedAt := now, authorisedFor := if days > 0 then days else d.authorisedFor,
       lastSkipReason := "",
       nextRunAt := if d.intervalDays > 0 && (d.nextRunAt == ZERO_TIME || d.nextRunAt < now) then now else d.nextRunAt)
  }

  /** The days an authorisation is good for. */
  function Term(d: Definition): int {
    if d.authorisedFor <= 0 then DEFAULT_AUTHORISATION_DAYS else d.authorisedFor
  }

  // ----- the service -----

  class Service {
    const caps: Caps
    var defs: Definitions
    var order: seq<string>
    ghost var history: seq<Event>

    constructor (caps: Caps)
      ensures this.caps == caps && defs == map[] && order == [] && history == []
    {
      this.caps := caps;
      defs := map[];
      order := [];
      history := [];
    }

    ghost predicate Valid()
      reads this
    {
      Keyed(defs) && NoDuplicates(order) && forall i :: i in order <==> i in defs
    }

    method UpdateDefinition(d: Definition, ok: bool) returns (done: bool)
      modifies `defs
      ensures defs == Write(old(defs), d, ok)
      ensures done <==> ok && d.id in old(defs)
    {
      if !ok || d.id !in defs {
        return false;
      }
      defs := defs[d.id := d];
      return true;
    }

    static method Prepare(draft: Definition, id: string, now: int) returns (d: Definition)
      ensures d == Fresh(draft, id, now)
    {
      d := draft.(id := id, statement := AFFIRMATION, authorisedAt := now);
      if d.authorisedFor <= 0 {
        d := d.(authorisedFor := DEFAULT_AUTHORISATION_DAYS);
      }
      if d.workspace == "" {
        d := d.(workspace := "default");
      }
      if d.notifyOn == "" {
        d := d.(notifyOn := RULE_CHANGE);
      }
      d := d.(enabled := true, created := now);
      if d.intervalDays > 0 {
        d := d.(nextRunAt := now + DAY * d.intervalDays);
      }
    }

    method SaveDefinition(draft: Definition, id: string, now: int, ok: bool) returns (r: SaveResult)
      requires Valid()
      modifies this
      ensures Valid()
      ensures r.Saved? <==> SaveRefusal(caps, |old(order)|, draft).None? && ok && id !in old(defs)
      ensures r.Saved? ==>
                && defs == old(defs)[id := Fresh(draft, id, now)] && order == old(order) + [id]
                && history == old(history) + [Affirmed(id, now, Term(Fresh(draft, id, now)))]
      ensures !r.Saved? ==> defs == old(defs) && order == old(order) && history == old(history)
    {
      hide SaveRefusal, Term;
      var refusal := SaveRefusal(caps, |order|, draft);
      if refusal.Some? {
        return SaveRefused(refusal.value);
      }
      var d := Prepare(draft, id, now);
      if !ok || id in defs {
        return SaveFailed;
      }
      defs := defs[id := d];
      order := order + [id];
      history := history + [Affirmed(id, now, Term(d))];
      return Saved;
    }

    method RunDefinition(id: string, scheduled: bool, now: int, luck: Luck) returns (r: RunResult)
      requires Keyed(defs)
      modifies `defs, `history
      ensures r == RunResultOf(old(defs), id, now, luck)
      ensures defs == AfterRun(old(defs), id, now, luck)
      ensures history == old(history) + RunEvents(old(defs), id, now, scheduled, luck)
    {
      if id !in defs {
        return NoDefinition;
      }
      var d := defs[id];
      if !d.enabled || !d.AuthorisationValid(now) || luck.job.None? {
        if scheduled {
          history := history + [Attempted(id, now, true, false, d.intervalDays, luck.secondWrite)];
        }
        return Declined(if !d.enabled then DISABLED else if !d.AuthorisationValid(now) then LapsedText(d) else luck.refusal);
      }
      var job := luck.job.value;
      history := history + [Attempted(id, now, scheduled, true, d.intervalDays, luck.firstWrite || (scheduled && luck.secondWrite))];
      d := d.(lastRunId := job, lastRunAt := now, lastSkipReason := "");
      if d.intervalDays > 0 {
        d := d.(nextRunAt := now + DAY * d.intervalDays);
      }
      var done := UpdateDefinition(d, luck.firstWrite);
      if !done {
        return RanUnrecorded(job);
      }
      return Ran(job);
    }

    /** One tick over all definitions, on the list as it was when the tick began. */
    method RunDue(now: int, luck: string -> Luck) returns (started: nat)
      requires Valid()
      modifies `defs, `history
      ensures TickState(defs, history, started)
              == Turns(TickState(old(defs), old(history), 0), DefinitionsListed(old(defs), old(order), ""), now, luck)
      ensures Valid()
    {
      hide TurnDefs, TurnEvents, TurnStarted, DefinitionsListed;
      var listed := DefinitionsListed(defs, order, "");
      ghost var s0 := TickState(defs, history, 0);
      started := 0;
      for i := 0 to |listed|
        invariant Keyed(defs)
        invariant TickState(defs, history, started) == Turns(s0, listed[..i], now, luck)
      {
        var d := listed[i];
        TakeNext(listed, i);
        TurnsSnoc(s0, listed[..i], d, now, luck);
        var one := RunTurn(d, now, luck(d.id));
        started := started + one;
      }
      assert listed[..|listed|] == listed;
    }

    method RunTurn(d: Definition, now: int, luck: Luck) returns (started: nat)
      requires Keyed(defs)
      modifies `defs, `history
      ensures defs == TurnDefs(old(defs), d, now, luck)
      ensures history == old(history) + TurnEvents(old(defs), d, now, luck)
      ensures started == TurnStarted(old(defs), d, now, luck)
    {
      hide RunResultOf, AfterRun, RunEvents;
      if !d.enabled || d.intervalDays <= 0 {
        return 0;
      }
      if d.nextRunAt == ZERO_TIME || now < d.nextRunAt {
        return 0;
      }
      if !d.AuthorisationValid(now) {
        var reason := LapseReason(d);
        if d.lastSkipReason != reason {
          var _ := UpdateDefinition(d.(lastSkipReason := reason), luck.firstWrite);
        }
        return 0;
      }
      var r := RunDefinition(d.id, true, now, luck);
      if !r.Ran? {
        var pushed := d.(lastSkipReason := "run refused: " + ErrorText(r), nextRunAt := now + DAY * d.intervalDays);
        var _ := UpdateDefinition(pushed, luck.secondWrite);
        return 0;
      }
      return 1;
    }

    method Reauthorise(id: string, operator: string, confirmed: bool, days: int, now: int, ok: bool) returns (done: bool)
      requires Valid()
      modifies `defs, `history
      ensures Valid()
      ensures done <==> confirmed && operator != "" && id in old(defs) && ok
      ensures done ==>
                && defs == old(defs)[id := Reaffirmed(old(defs)[id], operator, days, now)]
                && history == old(history) + [Affirmed(id, now, Term(Reaffirmed(old(defs)[id], operator, days, now)))]
      ensures !done ==> defs == old(defs) && history == old(history)
    {
      if !confirmed || operator == "" || id !in defs {
        return false;
      }
      var d := defs[id];
      d := d.(operator := operator, authorisedAt := now);
      if days > 0 {
        d := d.(authorisedFor := days);
      }
      d := d.(lastSkipReason := "");
      if d.intervalDays > 0 && (d.nextRunAt == ZERO_TIME || d.nextRunAt < now) {
        d := d.(nextRunAt := now);
      }
      done := UpdateDefinition(d, ok);
      if done {
        history := history + [Affirmed(id, now, Term(d))];
      }
    }

    method DeleteDefinition(id: string, ok: bool) returns (done: bool)
      requires Valid()
      modifies `defs, `order
      ensures Valid()
      ensures done <==> id in old(defs) && ok
      ensures defs == if done then old(defs) - {id} else old(defs)
      ensures order == if done then Without(old(order), id) else old(order)
    {
      if id !in defs || !ok {
        return false;
      }
      WithoutMembers(order, id);
      defs := defs - {id};
      order := DropFromOrder(order, id);
      return true;
    }
  }
}
