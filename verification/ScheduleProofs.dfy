/** Over every trace of save, tick, manual run, re-authorise and delete steps on a monotone clock: no run
    outside an affirmed window, and no scheduled attempt too soon after the one before. */
module ScheduleProofs {
  import opened Text
  import opened Ordering
  import opened Findings
  import opened Records
  import opened Store
  import opened Schedule

  // ----- what a history must satisfy -----

  function LatestAffirmation(h: seq<Event>, id: string): (r: Option<Event>)
    ensures r.Some? ==> r.value.Affirmed? && r.value in h
  {
    if h == [] then None
    else if h[|h| - 1].Affirmed? && h[|h| - 1].id == id then Some(h[|h| - 1])
    else LatestAffirmation(h[..|h| - 1], id)
  }

  /** The run started inside the window of the affirmation in force: not before it, strictly before its end. */
  predicate InsideWindow(h: seq<Event>, k: nat)
    requires k < |h|
  {
    h[k].Attempted? && h[k].started ==>
      var a := LatestAffirmation(h[..k], h[k].id);
      a.Some? && a.value.at <= h[k].at < a.value.at + DAY * a.value.days
  }

  ghost predicate Covered(h: seq<Event>) {
    forall k :: 0 <= k < |h| ==> InsideWindow(h, k)
  }

  predicate FarEnough(e: Event, f: Event) {
    e.Attempted? && f.Attempted? && f.scheduled && e.id == f.id ==> f.at >= e.at + DAY * f.days
  }

  /** No scheduled attempt comes sooner than one interval after any earlier attempt of the definition. */
  ghost predicate Spaced(h: seq<Event>) {
    forall j, k :: 0 <= j < k < |h| ==> FarEnough(h[j], h[k])
  }

  /** The same, but for earlier attempts that left their mark only. */
  ghost predicate SpacedFromKept(h: seq<Event>) {
    forall j, k :: 0 <= j < k < |h| && h[j].Attempted? && h[j].kept ==> FarEnough(h[j], h[k])
  }

  /** The same, but for earlier attempts that left none. */
  ghost predicate SpacedFromLost(h: seq<Event>) {
    forall j, k :: 0 <= j < k < |h| && h[j].Attempted? && !h[j].kept ==> FarEnough(h[j], h[k])
  }

  // ----- the invariants -----

  predicate Authorised(defs: Definitions, h: seq<Event>, id: string)
    requires id in defs
  {
    LatestAffirmation(h, id) == Some(Affirmed(id, defs[id].authorisedAt, Term(defs[id])))
  }

  ghost predicate Windows(defs: Definitions, h: seq<Event>, now: int) {
    && Keyed(defs)
    && (forall id :: id in defs ==> Authorised(defs, h, id))
    && (forall e :: e in h ==> e.at <= now)
    && Covered(h)
  }

  predicate NextIsFar(d: Definition, e: Event) {
    e.Attempted? && e.kept && e.id == d.id && d.intervalDays > 0 ==> d.nextRunAt >= e.at + DAY * d.intervalDays
  }

  ghost predicate Gaps(defs: Definitions, h: seq<Event>, now: int) {
    && Keyed(defs)
    && (forall id, e :: id in defs && e in h ==> NextIsFar(defs[id], e))
    && (forall e :: e in h ==> e.at <= now)
    && SpacedFromKept(h)
  }

  lemma LatestSnoc(h: seq<Event>, e: Event, id: string)
    ensures LatestAffirmation(h + [e], id)
            == if e.Affirmed? && e.id == id then Some(e) else LatestAffirmation(h, id)
  {
    assert (h + [e])[..|h|] == h;
  }

  lemma CoveredSnoc(h: seq<Event>, e: Event)
    requires Covered(h)
    requires e.Attempted? && e.started ==>
               var a := LatestAffirmation(h, e.id);
               a.Some? && a.value.at <= e.at < a.value.at + DAY * a.value.days
    ensures Covered(h + [e])
  {
    hide LatestAffirmation;
    forall k | 0 <= k < |h + [e]| ensures InsideWindow(h + [e], k) {
      if k < |h| {
        assert InsideWindow(h, k);
        assert (h + [e])[..k] == h[..k];
      } else {
        assert (h + [e])[..k] == h;
      }
    }
  }

  lemma SpacedSnoc(h: seq<Event>, e: Event)
    requires SpacedFromKept(h) && forall x :: x in h && x.Attempted? && x.kept ==> FarEnough(x, e)
    ensures SpacedFromKept(h + [e])
  {
    forall j, k | 0 <= j < k < |h + [e]| && (h + [e])[j].Attempted? && (h + [e])[j].kept
      ensures FarEnough((h + [e])[j], (h + [e])[k]) {
      if k == |h| {
        assert h[j] in h;
      }
    }
  }

  // ----- one definition changes, at most one event is added -----

  predicate SameTerms(x: Definition, d: Definition) {
    x.id == d.id && x.authorisedAt == d.authorisedAt && x.authorisedFor == d.authorisedFor && x.intervalDays == d.intervalDays
  }

  /** The attempt was recorded, so the next one is pushed out. */
  predicate Kept(luck: Luck) {
    luck.secondWrite || (luck.job.Some? && luck.firstWrite)
  }

  lemma TurnEffect(defs: Definitions, d: Definition, now: int, luck: Luck)
    requires Keyed(defs) && d.id in defs && defs[d.id] == d
    ensures TurnDefs(defs, d, now, luck).Keys == defs.Keys
    ensures forall id :: id in defs && id != d.id ==> TurnDefs(defs, d, now, luck)[id] == defs[id]
    ensures SameTerms(TurnDefs(defs, d, now, luck)[d.id], d)
    ensures TurnDefs(defs, d, now, luck)[d.id].nextRunAt
            == if Attempts(d, now) && Kept(luck) then now + DAY * d.intervalDays else d.nextRunAt
    ensures TurnEvents(defs, d, now, luck)
            == if Attempts(d, now) then [Attempted(d.id, now, true, luck.job.Some?, d.intervalDays, Kept(luck))] else []
  {
    hide LapseReason, LapsedText;
  }

  lemma ManualEffect(defs: Definitions, id: string, now: int, luck: Luck)
    requires Keyed(defs) && id in defs
    ensures AfterRun(defs, id, now, luck).Keys == defs.Keys
    ensures forall i :: i in defs && i != id ==> AfterRun(defs, id, now, luck)[i] == defs[i]
    ensures SameTerms(AfterRun(defs, id, now, luck)[id], defs[id])
    ensures var ran := defs[id].enabled && defs[id].AuthorisationValid(now) && luck.job.Some?;
            && RunEvents(defs, id, now, false, luck) == (if ran then [Attempted(id, now, false, true, defs[id].intervalDays, luck.firstWrite)] else [])
            && (AfterRun(defs, id, now, luck)[id].nextRunAt
                == if ran && luck.firstWrite && defs[id].intervalDays > 0 then now + DAY * defs[id].intervalDays else defs[id].nextRunAt)
  {
    hide LapsedText;
  }

  lemma AttemptWindows(defs: Definitions, h: seq<Event>, defs': Definitions, e: Event, now: int)
    requires Windows(defs, h, now)
    requires defs'.Keys == defs.Keys && forall id :: id in defs ==> SameTerms(defs'[id], defs[id])
    requires e.Attempted? && e.at == now && e.id in defs && defs[e.id].AuthorisationValid(now)
    ensures Windows(defs', h + [e], now)
  {
    hide LatestAffirmation, Covered;
    assert Authorised(defs, h, e.id);
    CoveredSnoc(h, e);
    forall id | id in defs' ensures Authorised(defs', h + [e], id) {
      LatestSnoc(h, e, id);
      assert Authorised(defs, h, id);
    }
  }

  lemma TermsWindows(defs: Definitions, h: seq<Event>, defs': Definitions, now: int)
    requires Windows(defs, h, now)
    requires defs'.Keys == defs.Keys && forall id :: id in defs ==> SameTerms(defs'[id], defs[id])
    ensures Windows(defs', h, now)
  {
    hide LatestAffirmation, Covered;
    forall id | id in defs' ensures Authorised(defs', h, id) {
      assert Authorised(defs, h, id);
    }
  }

  lemma AttemptGaps(defs: Definitions, h: seq<Event>, defs': Definitions, e: Event, now: int)
    requires Gaps(defs, h, now)
    requires defs'.Keys == defs.Keys && forall id :: id in defs ==> SameTerms(defs'[id], defs[id])
    requires e.Attempted? && e.at == now && e.id in defs && e.days == defs[e.id].intervalDays
    requires e.scheduled ==> now >= defs[e.id].nextRunAt && e.days > 0
    requires forall id :: id in defs && id != e.id ==> defs'[id] == defs[id]
    requires defs'[e.id].nextRunAt == (if e.kept && e.days > 0 then now + DAY * e.days else defs[e.id].nextRunAt)
    ensures Gaps(defs', h + [e], now)
  {
    hide SpacedFromKept;
    forall x | x in h && x.Attempted? && x.kept ensures FarEnough(x, e) {
      assert NextIsFar(defs[e.id], x);
    }
    SpacedSnoc(h, e);
    forall id, x | id in defs' && x in h + [e] ensures NextIsFar(defs'[id], x) {
      if x in h {
        assert NextIsFar(defs[id], x);
      }
    }
  }

  lemma QuietGaps(defs: Definitions, h: seq<Event>, defs': Definitions, now: int)
    requires Gaps(defs, h, now)
    requires defs'.Keys == defs.Keys
    requires forall id :: id in defs ==> SameTerms(defs'[id], defs[id]) && defs'[id].nextRunAt >= defs[id].nextRunAt
    ensures Gaps(defs', h, now)
  {
    hide SpacedFromKept;
    forall id, x | id in defs' && x in h ensures NextIsFar(defs'[id], x) {
      assert NextIsFar(defs[id], x);
    }
  }

  // ----- a tick -----

  lemma TurnWindows(s: TickState, d: Definition, now: int, luck: Luck)
    requires Windows(s.defs, s.history, now) && d.id in s.defs && s.defs[d.id] == d
    ensures Windows(Turn(s, d, now, luck).defs, Turn(s, d, now, luck).history, now)
  {
    hide TurnDefs, TurnEvents, Windows, TurnStarted;
    assert Keyed(s.defs) by { WindowsKeyed(s.defs, s.history, now); }
    TurnEffect(s.defs, d, now, luck);
    var defs' := TurnDefs(s.defs, d, now, luck);
    if Attempts(d, now) {
      AttemptWindows(s.defs, s.history, defs', Attempted(d.id, now, true, luck.job.Some?, d.intervalDays, Kept(luck)), now);
    } else {
      TermsWindows(s.defs, s.history, defs', now);
      assert s.history + [] == s.history;
    }
  }

  lemma WindowsKeyed(defs: Definitions, h: seq<Event>, now: int)
    requires Windows(defs, h, now)
    ensures Keyed(defs)
  {
  }

  lemma TurnGaps(s: TickState, d: Definition, now: int, luck: Luck)
    requires Keyed(s.defs) && Gaps(s.defs, s.history, now) && d.id in s.defs && s.defs[d.id] == d
    ensures Gaps(Turn(s, d, now, luck).defs, Turn(s, d, now, luck).history, now)
  {
    hide TurnDefs, TurnEvents, Gaps, TurnStarted;
    TurnEffect(s.defs, d, now, luck);
    var defs' := TurnDefs(s.defs, d, now, luck);
    if Attempts(d, now) {
      AttemptGaps(s.defs, s.history, defs', Attempted(d.id, now, true, luck.job.Some?, d.intervalDays, Kept(luck)), now);
    } else {
      QuietGaps(s.defs, s.history, defs', now);
      assert s.history + [] == s.history;
    }
  }

  function DefinitionId(d: Definition): string { d.id }

  function IdsOf(ds: seq<Definition>): seq<string> { MapSeq(DefinitionId, ds) }

  ghost predicate Current(defs: Definitions, listed: seq<Definition>) {
    NoDuplicates(IdsOf(listed)) && forall d :: d in listed ==> d.id in defs && defs[d.id] == d
  }

  lemma CurrentPrefix(defs: Definitions, listed: seq<Definition>)
    requires Current(defs, listed) && listed != []
    ensures Current(defs, listed[..|listed| - 1])
    ensures listed[|listed| - 1].id !in IdsOf(listed[..|listed| - 1])
    ensures var d := listed[|listed| - 1]; d.id in defs && defs[d.id] == d
  {
    var n := |listed| - 1;
    SplitLast(listed);
    assert IdsOf(listed[..n]) == IdsOf(listed)[..n];
    assert IdsOf(listed)[n] == listed[n].id;
  }

  lemma {:induction false} ListedCurrent(defs: Definitions, order: seq<string>)
    requires Keyed(defs) && NoDuplicates(order)
    ensures Current(defs, DefinitionsListed(defs, order, ""))
    ensures forall id :: id in IdsOf(DefinitionsListed(defs, order, "")) <==> id in order && id in defs
  {
    if order != [] {
      var n := |order| - 1;
      SplitLast(order);
      ListedCurrent(defs, order[..n]);
      var rest := DefinitionsListed(defs, order[..n], "");
      if order[n] in defs {
        MapSnoc(DefinitionId, rest, defs[order[n]]);
      }
    }
  }

  /** A turn concerns its own definition only, so later turns find theirs as the listing has it. */
  lemma {:induction false} TurnsElsewhere(s: TickState, listed: seq<Definition>, now: int, luck: string -> Luck, id: string)
    requires Keyed(s.defs) && Current(s.defs, listed)
    requires id in s.defs && id !in IdsOf(listed)
    ensures Turns(s, listed, now, luck).defs[id] == s.defs[id]
  {
    hide TurnDefs, TurnEvents, TurnStarted, Current;
    if listed != [] {
      var n := |listed| - 1;
      var d := listed[n];
      CurrentPrefix(s.defs, listed);
      assert IdsOf(listed) == IdsOf(listed[..n]) + [d.id] by { SplitLast(listed); MapSnoc(DefinitionId, listed[..n], d); }
      TurnsElsewhere(s, listed[..n], now, luck, id);
      TurnsElsewhere(s, listed[..n], now, luck, d.id);
      TurnEffect(Turns(s, listed[..n], now, luck).defs, d, now, luck(d.id));
    }
  }

  lemma {:induction false} TickWindows(s: TickState, listed: seq<Definition>, now: int, luck: string -> Luck)
    requires Windows(s.defs, s.history, now) && Current(s.defs, listed)
    requires Keyed(s.defs)
    ensures Windows(Turns(s, listed, now, luck).defs, Turns(s, listed, now, luck).history, now)
  {
    hide TurnDefs, TurnEvents, TurnStarted, Current, Windows, Turn;
    if listed != [] {
      var n := |listed| - 1;
      CurrentPrefix(s.defs, listed);
      TickWindows(s, listed[..n], now, luck);
      TurnsElsewhere(s, listed[..n], now, luck, listed[n].id);
      TurnWindows(Turns(s, listed[..n], now, luck), listed[n], now, luck(listed[n].id));
    }
  }

  lemma {:induction false} TickGaps(s: TickState, listed: seq<Definition>, now: int, luck: string -> Luck)
    requires Keyed(s.defs) && Gaps(s.defs, s.history, now) && Current(s.defs, listed)
    ensures Gaps(Turns(s, listed, now, luck).defs, Turns(s, listed, now, luck).history, now)
  {
    hide TurnDefs, TurnEvents, TurnStarted, Current, Gaps, Turn;
    if listed != [] {
      var n := |listed| - 1;
      CurrentPrefix(s.defs, listed);
      TickGaps(s, listed[..n], now, luck);
      TurnsElsewhere(s, listed[..n], now, luck, listed[n].id);
      TurnGaps(Turns(s, listed[..n], now, luck), listed[n], now, luck(listed[n].id));
    }
  }

  // ----- traces -----

  datatype Step =
    | Save(draft: Definition, id: string, ok: bool)
    | Tick(luck: string -> Luck)
    | Manual(id: string, chance: Luck)
    | Affirm(id: string, operator: string, confirmed: bool, days: int, ok: bool)
    | Delete(id: string, ok: bool)

  datatype Timed = Timed(at: int, step: Step)

  datatype World = World(defs: Definitions, order: seq<string>, history: seq<Event>)

  const GENESIS := World(map[], [], [])

  ghost predicate Sound(w: World) {
    Keyed(w.defs) && NoDuplicates(w.order) && forall i :: i in w.order <==> i in w.defs
  }

  ghost function Advance(caps: Caps, w: World, s: Step, now: int): World
    requires Keyed(w.defs)
  {
    match s
    case Save(draft, id, ok) =>
      var d := Fresh(draft, id, now);
      if SaveRefusal(caps, |w.order|, draft).None? && ok && id !in w.defs then
        World(w.defs[id := d], w.order + [id], w.history + [Affirmed(id, now, Term(d))])
      else w
    case Tick(luck) =>
      var t := Turns(TickState(w.defs, w.history, 0), DefinitionsListed(w.defs, w.order, ""), now, luck);
      w.(defs := t.defs, history := t.history)
    case Manual(id, luck) =>
      w.(defs := AfterRun(w.defs, id, now, luck), history := w.history + RunEvents(w.defs, id, now, false, luck))
    case Affirm(id, operator, confirmed, days, ok) =>
      if confirmed && operator != "" && id in w.defs && ok then
        var d := Reaffirmed(w.defs[id], operator, days, now);
        w.(defs := w.defs[id := d], history := w.history + [Affirmed(id, now, Term(d))])
      else w
    case Delete(id, ok) =>
      if id in w.defs && ok then w.(defs := w.defs - {id}, order := Without(w.order, id)) else w
  }

  ghost predicate Monotone(trace: seq<Timed>) {
    (forall i :: 0 <= i < |trace| ==> trace[i].at > ZERO_TIME)
    && forall i, j :: 0 <= i < j < |trace| ==> trace[i].at <= trace[j].at
  }

  lemma AdvanceSound(caps: Caps, w: World, s: Step, now: int)
    requires Sound(w)
    ensures Sound(Advance(caps, w, s, now))
  {
    hide TurnDefs, TurnEvents, Turn, Fresh, Reaffirmed, SaveRefusal, RunResultOf, RunEvents, DefinitionsListed;
    match s
    case Save(draft, id, ok) =>
      assert Fresh(draft, id, now).id == id by { FreshId(draft, id, now); }
    case Tick(luck) =>
    case Manual(id, luck) =>
      if id in w.defs {
        ManualEffect(w.defs, id, now, luck);
      } else {
        NothingToRun(w.defs, id, now, luck);
      }
    case Affirm(id, operator, confirmed, days, ok) =>
      if id in w.defs {
        assert Reaffirmed(w.defs[id], operator, days, now).id == id by { ReaffirmedId(w.defs[id], operator, days, now); }
      }
    case Delete(id, ok) =>
      WithoutMembers(w.order, id);
  }

  lemma FreshId(d: Definition, id: string, now: int)
    ensures Fresh(d, id, now).id == id
  {
  }

  lemma ReaffirmedId(d: Definition, operator: string, days: int, now: int)
    ensures Reaffirmed(d, operator, days, now).id == d.id
  {
  }

  lemma NothingToRun(defs: Definitions, id: string, now: int, luck: Luck)
    requires Keyed(defs) && id !in defs
    ensures AfterRun(defs, id, now, luck) == defs && RunEvents(defs, id, now, false, luck) == []
  {
  }
}
