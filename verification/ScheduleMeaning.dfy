/** internal/schedule/schedule.go, internal/orchestrator/definition.go, internal/webui/definitions.go: what each step does
    to one saved assessment and its history, in days and seconds. */
module ScheduleMeaning {
  import opened Text
  import opened Ordering
  import opened Findings
  import opened Records
  import opened Store
  import opened Schedule
  import opened ScheduleProofs

  // ----- when -----

  /** It is enabled, has an interval and a next run, and the next run has come. */
  predicate IsDue(d: Definition, now: int) { d.enabled && d.intervalDays > 0 && d.nextRunAt != 0 && d.nextRunAt <= now }

  /** The end of its authorisation: ninety days from the affirmation unless it says otherwise. */
  function End(d: Definition): int { d.authorisedAt + 86400 * (if d.authorisedFor > 0 then d.authorisedFor else 90) }

  predicate InWindow(d: Definition, now: int) { d.authorisedAt != 0 && now < End(d) }

  predicate LeavesMark(l: Luck) { (l.job.Some? && l.firstWrite) || l.secondWrite }

  // ----- a tick -----

  /** The definition after its turn: a run that was recorded, a lapse that was noted, a refusal or a failed record that
      was pushed out by an interval, or nothing. */
  function AfterTick(d: Definition, now: int, l: Luck): Definition {
    if !IsDue(d, now) then d
    else if !InWindow(d, now) then
      if l.firstWrite
      then d.(lastSkipReason := "authorisation lapsed on " + Itoa(End(d) / 86400) + "; re-affirm it to resume scheduled runs")
      else d
    else if l.job.Some? && l.firstWrite then
      d.(lastRunId := l.job.value, lastRunAt := now, lastSkipReason := "", nextRunAt := now + 86400 * d.intervalDays)
    else if l.secondWrite then
      d.(lastSkipReason := "run refused: " + (if l.job.Some? then "orchestrator: update definition" else l.refusal),
         nextRunAt := now + 86400 * d.intervalDays)
    else d
  }

  function TickEvents(d: Definition, now: int, l: Luck): seq<Event> {
    if IsDue(d, now) && InWindow(d, now) then [Attempted(d.id, now, true, l.job.Some?, d.intervalDays, LeavesMark(l))] else []
  }

  function About(id: string): Event -> bool { (e: Event) => e.id == id }

  lemma WindowMeans(d: Definition, now: int)
    ensures d.AuthorisationValid(now) <==> InWindow(d, now)
    ensures d.AuthorisationExpires() == End(d)
    ensures Due(d, now) <==> IsDue(d, now)
  {
  }

  lemma TurnMeans(defs: Definitions, d: Definition, now: int, l: Luck)
    requires Keyed(defs) && d.id in defs && defs[d.id] == d
    ensures TurnDefs(defs, d, now, l) == defs[d.id := AfterTick(d, now, l)]
    ensures TurnEvents(defs, d, now, l) == TickEvents(d, now, l)
  {
    hide Itoa;
    WindowMeans(d, now);
    var e := AfterTick(d, now, l);
    var after := TurnDefs(defs, d, now, l);
    assert after[d.id] == e;
    assert after == defs[d.id := e];
  }

  lemma {:induction false} TurnsMean(s: TickState, listed: seq<Definition>, now: int, luck: string -> Luck, id: string)
    requires Keyed(s.defs) && Current(s.defs, listed) && id in s.defs
    ensures var t := Turns(s, listed, now, luck);
            var d := s.defs[id];
            if id in IdsOf(listed) then
              t.defs[id] == AfterTick(d, now, luck(id))
              && Filter(About(id), t.history) == Filter(About(id), s.history) + TickEvents(d, now, luck(id))
            else
              t.defs[id] == d && Filter(About(id), t.history) == Filter(About(id), s.history)
  {
    hide TurnDefs, TurnEvents, TurnStarted, Current, Filter, AfterTick;
    if listed != [] {
      var n := |listed| - 1;
      var d := listed[n];
      CurrentPrefix(s.defs, listed);
      assert IdsOf(listed) == IdsOf(listed[..n]) + [d.id] by { SplitLast(listed); MapSnoc(DefinitionId, listed[..n], d); }
      var t := Turns(s, listed[..n], now, luck);
      TurnsMean(s, listed[..n], now, luck, id);
      TurnsElsewhere(s, listed[..n], now, luck, d.id);
      TurnMeans(t.defs, d, now, luck(d.id));
      EventsOf(t.history, d, now, luck(d.id), id);
    }
  }

  lemma EventsOf(h: seq<Event>, d: Definition, now: int, l: Luck, id: string)
    ensures Filter(About(id), h + TickEvents(d, now, l))
            == Filter(About(id), h) + if d.id == id then TickEvents(d, now, l) else []
  {
    hide Filter, IsDue, InWindow, LeavesMark;
    if IsDue(d, now) && InWindow(d, now) {
      FilterStep(About(id), h, TickEvents(d, now, l)[0]);
    } else {
      assert h + [] == h;
    }
  }

  /** A tick gives every definition its turn, once: it is attempted exactly when it is due inside its window. */
  lemma TickMeans(caps: Caps, w: World, now: int, luck: string -> Luck, id: string)
    requires Sound(w) && id in w.defs
    ensures var v := Advance(caps, w, Tick(luck), now);
            && v.order == w.order && v.defs.Keys == w.defs.Keys
            && v.defs[id] == AfterTick(w.defs[id], now, luck(id))
            && Filter(About(id), v.history) == Filter(About(id), w.history) + TickEvents(w.defs[id], now, luck(id))
  {
    hide Turns, DefinitionsListed, Filter, AfterTick, TickEvents;
    ListedCurrent(w.defs, w.order);
    TurnsMean(TickState(w.defs, w.history, 0), DefinitionsListed(w.defs, w.order, ""), now, luck, id);
  }

  // ----- the steps a person takes -----

  /** What running by hand answers and leaves: nothing is run that is disabled or outside its window, and a run that
      started is recorded when the write succeeds. */
  lemma ManualMeans(caps: Caps, w: World, now: int, l: Luck, id: string)
    requires Sound(w) && id in w.defs
    ensures var v := Advance(caps, w, Manual(id, l), now);
            var d := w.defs[id];
            var starts := d.enabled && InWindow(d, now) && l.job.Some?;
            && v.order == w.order
            && v.defs == (if starts && l.firstWrite then
                            w.defs[id := d.(lastRunId := l.job.value, lastRunAt := now, lastSkipReason := "",
                                            nextRunAt := if d.intervalDays > 0 then now + 86400 * d.intervalDays else d.nextRunAt)]
                          else w.defs)
            && v.history == w.history + (if starts then [Attempted(id, now, false, true, d.intervalDays, l.firstWrite)] else [])
            && (RunResultOf(w.defs, id, now, l).Declined? <==> !starts)
            && (RunResultOf(w.defs, id, now, l) == Ran(if l.job.Some? then l.job.value else "") <==> starts && l.firstWrite)
  {
    hide LapsedText;
    WindowMeans(w.defs[id], now);
  }

  /** What the tier and the form ask of an assessment to be saved; zero means no limit. */
  predicate MaySave(caps: Caps, existing: nat, d: Definition) {
    && caps.reassessment && d.profile in caps.known && d.profile in caps.profiles
    && TrimSpace(d.name) != "" && TrimSpace(d.operator) != ""
    && d.targets != [] && (caps.maxTargets == 0 || |d.targets| <= caps.maxTargets)
    && (caps.maxDefinitions == 0 || existing < caps.maxDefinitions)
  }

  /** Saving puts the assessment at the end, enabled, affirmed now and due one interval later. */
  lemma SaveMeans(caps: Caps, w: World, now: int, draft: Definition, id: string, ok: bool)
    requires Sound(w)
    ensures var v := Advance(caps, w, Save(draft, id, ok), now);
            if MaySave(caps, |w.order|, draft) && ok && id !in w.defs then
              var d := draft.(
                id := id, enabled := true, created := now, authorisedAt := now,
                statement := "I am authorised to assess the targets listed below, and I accept responsibility for this assessment.",
                authorisedFor := if draft.authorisedFor > 0 then draft.authorisedFor else 90,
                workspace := if draft.workspace == "" then "default" else draft.workspace,
                notifyOn := if draft.notifyOn == "" then "change" else draft.notifyOn,
                nextRunAt := if draft.intervalDays > 0 then now + 86400 * draft.intervalDays else draft.nextRunAt);
              v == World(w.defs[id := d], w.order + [id], w.history + [Affirmed(id, now, d.authorisedFor)])
            else v == w
  {
    hide TrimSpace;
  }

  /** Affirming again starts the clock at now and wakes an assessment whose run is overdue or was never set. */
  lemma AffirmMeans(caps: Caps, w: World, now: int, id: string, operator: string, confirmed: bool, days: int, ok: bool)
    requires Sound(w)
    ensures var v := Advance(caps, w, Affirm(id, operator, confirmed, days, ok), now);
            if id in w.defs && confirmed && operator != "" && ok then
              var d := w.defs[id];
              var e := d.(operator := operator, authorisedAt := now, lastSkipReason := "",
                          authorisedFor := if days > 0 then days else d.authorisedFor,
                          nextRunAt := if d.intervalDays > 0 && d.nextRunAt < now then now
                                       else if d.intervalDays > 0 && d.nextRunAt == 0 then now else d.nextRunAt);
              && v.defs == w.defs[id := e] && v.order == w.order
              && v.history == w.history + [Affirmed(id, now, if e.authorisedFor > 0 then e.authorisedFor else 90)]
            else v == w
  {
  }
}
