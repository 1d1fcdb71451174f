/** The two promises of the scheduler over whole traces, and what happens when a write fails. */
module ScheduleTraces {
  import opened Text
  import opened Ordering
  import opened Findings
  import opened Records
  import opened Store
  import opened Schedule
  import opened ScheduleProofs

  // ----- every step keeps the windows -----

  lemma LaterWindows(defs: Definitions, h: seq<Event>, earlier: int, now: int)
    requires Windows(defs, h, earlier) && earlier <= now
    ensures Windows(defs, h, now)
  {
    hide LatestAffirmation, Covered;
  }

  lemma AffirmedWindows(defs: Definitions, h: seq<Event>, d: Definition, now: int)
    requires Windows(defs, h, now) && d.authorisedAt == now
    ensures Windows(defs[d.id := d], h + [Affirmed(d.id, now, Term(d))], now)
  {
    hide LatestAffirmation, Covered, Term;
    var e := Affirmed(d.id, now, Term(d));
    var defs' := defs[d.id := d];
    CoveredSnoc(h, e);
    forall id | id in defs' ensures Authorised(defs', h + [e], id) {
      LatestSnoc(h, e, id);
      if id != d.id {
        assert Authorised(defs, h, id);
      }
    }
  }

  lemma FewerWindows(defs: Definitions, h: seq<Event>, id: string, now: int)
    requires Windows(defs, h, now)
    ensures Windows(defs - {id}, h, now)
  {
    hide LatestAffirmation, Covered;
    forall i | i in defs - {id} ensures Authorised(defs - {id}, h, i) {
      assert Authorised(defs, h, i);
    }
  }

  lemma ManualWindows(defs: Definitions, h: seq<Event>, id: string, now: int, luck: Luck)
    requires Keyed(defs) && Windows(defs, h, now)
    ensures Windows(AfterRun(defs, id, now, luck), h + RunEvents(defs, id, now, false, luck), now)
  {
    hide AfterRun, RunEvents, Windows;
    assert h + [] == h;
    if id in defs {
      ManualEffect(defs, id, now, luck);
      var defs' := AfterRun(defs, id, now, luck);
      if defs[id].enabled && defs[id].AuthorisationValid(now) && luck.job.Some? {
        AttemptWindows(defs, h, defs', Attempted(id, now, false, true, defs[id].intervalDays, luck.firstWrite), now);
      } else {
        TermsWindows(defs, h, defs', now);
      }
    } else {
      NothingToRun(defs, id, now, luck);
    }
  }

  lemma StepWindows(caps: Caps, w: World, s: Step, now: int)
    requires Sound(w) && Windows(w.defs, w.history, now)
    ensures var v := Advance(caps, w, s, now); Windows(v.defs, v.history, now)
  {
    hide Windows, Turns, AfterRun, RunEvents, Term, SaveRefusal, DefinitionsListed, Current;
    match s
    case Save(draft, id, ok) =>
      FreshTerms(draft, id, now);
      AffirmedWindows(w.defs, w.history, Fresh(draft, id, now), now);
    case Tick(luck) =>
      ListedCurrent(w.defs, w.order);
      TickWindows(TickState(w.defs, w.history, 0), DefinitionsListed(w.defs, w.order, ""), now, luck);
    case Manual(id, luck) =>
      ManualWindows(w.defs, w.history, id, now, luck);
    case Affirm(id, operator, confirmed, days, ok) =>
      if id in w.defs {
        ReaffirmedTerms(w.defs[id], operator, days, now);
        AffirmedWindows(w.defs, w.history, Reaffirmed(w.defs[id], operator, days, now), now);
      }
    case Delete(id, ok) =>
      FewerWindows(w.defs, w.history, id, now);
  }

  lemma FreshTerms(d: Definition, id: string, now: int)
    ensures var x := Fresh(d, id, now);
            x.id == id && x.authorisedAt == now && x.intervalDays == d.intervalDays
            && (d.intervalDays > 0 ==> x.nextRunAt == now + DAY * d.intervalDays)
  {
  }

  lemma ReaffirmedTerms(d: Definition, operator: string, days: int, now: int)
    ensures var x := Reaffirmed(d, operator, days, now);
            x.id == d.id && x.authorisedAt == now && x.intervalDays == d.intervalDays
            && (now > ZERO_TIME ==> x.nextRunAt >= d.nextRunAt)
  {
  }

  // ----- every step keeps the gaps -----

  lemma LaterGaps(defs: Definitions, h: seq<Event>, earlier: int, now: int)
    requires Gaps(defs, h, earlier) && earlier <= now
    ensures Gaps(defs, h, now)
  {
    hide SpacedFromKept, NextIsFar;
  }

  lemma AffirmedGaps(defs: Definitions, h: seq<Event>, d: Definition, now: int)
    requires Gaps(defs, h, now)
    requires forall e :: e in h ==> NextIsFar(d, e)
    ensures Gaps(defs[d.id := d], h + [Affirmed(d.id, now, Term(d))], now)
  {
    hide SpacedFromKept, Term;
    var e := Affirmed(d.id, now, Term(d));
    SpacedSnoc(h, e);
    var defs' := defs[d.id := d];
    forall id, x | id in defs' && x in h + [e] ensures NextIsFar(defs'[id], x) {
      if x in h && id != d.id {
        assert NextIsFar(defs[id], x);
      }
    }
  }

  lemma FewerGaps(defs: Definitions, h: seq<Event>, id: string, now: int)
    requires Gaps(defs, h, now)
    ensures Gaps(defs - {id}, h, now)
  {
    hide SpacedFromKept;
    forall i, x | i in defs - {id} && x in h ensures NextIsFar((defs - {id})[i], x) {
      assert NextIsFar(defs[i], x);
    }
  }

  lemma ManualGaps(defs: Definitions, h: seq<Event>, id: string, now: int, luck: Luck)
    requires Keyed(defs) && Gaps(defs, h, now)
    ensures Gaps(AfterRun(defs, id, now, luck), h + RunEvents(defs, id, now, false, luck), now)
  {
    hide AfterRun, RunEvents, Gaps;
    assert h + [] == h;
    if id in defs {
      ManualEffect(defs, id, now, luck);
      var defs' := AfterRun(defs, id, now, luck);
      if defs[id].enabled && defs[id].AuthorisationValid(now) && luck.job.Some? {
        AttemptGaps(defs, h, defs', Attempted(id, now, false, true, defs[id].intervalDays, luck.firstWrite), now);
      } else {
        QuietGaps(defs, h, defs', now);
      }
    } else {
      NothingToRun(defs, id, now, luck);
    }
  }

  lemma StepGaps(caps: Caps, w: World, s: Step, now: int)
    requires Sound(w) && Gaps(w.defs, w.history, now) && now > ZERO_TIME
    ensures var v := Advance(caps, w, s, now); Gaps(v.defs, v.history, now)
  {
    hide Turns, AfterRun, RunEvents, RunResultOf, Term, SaveRefusal, DefinitionsListed, Fresh, Reaffirmed, SpacedFromKept, Attempts;
    match s
    case Save(draft, id, ok) =>
      FreshTerms(draft, id, now);
      AffirmedGaps(w.defs, w.history, Fresh(draft, id, now), now);
    case Tick(luck) =>
      ListedCurrent(w.defs, w.order);
      TickGaps(TickState(w.defs, w.history, 0), DefinitionsListed(w.defs, w.order, ""), now, luck);
    case Manual(id, luck) =>
      ManualGaps(w.defs, w.history, id, now, luck);
    case Affirm(id, operator, confirmed, days, ok) =>
      if id in w.defs {
        ReaffirmedTerms(w.defs[id], operator, days, now);
        forall e | e in w.history ensures NextIsFar(Reaffirmed(w.defs[id], operator, days, now), e) {
          assert NextIsFar(w.defs[id], e);
        }
        AffirmedGaps(w.defs, w.history, Reaffirmed(w.defs[id], operator, days, now), now);
      }
    case Delete(id, ok) =>
      FewerGaps(w.defs, w.history, id, now);
  }

  // ----- whole traces -----

  ghost function Run(caps: Caps, trace: seq<Timed>): (w: World)
    ensures Sound(w)
  {
    if trace == [] then GENESIS
    else
      var before := Run(caps, trace[..|trace| - 1]);
      var t := trace[|trace| - 1];
      AdvanceSound(caps, before, t.step, t.at);
      Advance(caps, before, t.step, t.at)
  }

  function Clock(trace: seq<Timed>): int {
    if trace == [] then ZERO_TIME else trace[|trace| - 1].at
  }

  lemma {:induction false} RunWindows(caps: Caps, trace: seq<Timed>)
    requires Monotone(trace)
    ensures var w := Run(caps, trace); Windows(w.defs, w.history, Clock(trace))
  {
    hide Windows, Advance;
    if trace == [] {
      NothingYet();
    } else {
      var n := |trace| - 1;
      var w := Run(caps, trace[..n]);
      RunWindows(caps, trace[..n]);
      LaterWindows(w.defs, w.history, Clock(trace[..n]), trace[n].at);
      StepWindows(caps, w, trace[n].step, trace[n].at);
    }
  }

  lemma NothingYet()
    ensures Windows(map[], [], ZERO_TIME) && Gaps(map[], [], ZERO_TIME)
  {
  }

  /** Over every trace, every run starts inside the window of the affirmation then in force. */
  lemma RunsStartInsideTheWindow(caps: Caps, trace: seq<Timed>)
    requires Monotone(trace)
    ensures Covered(Run(caps, trace).history)
  {
    hide Run, Covered;
    RunWindows(caps, trace);
  }

  lemma {:induction false} RunGaps(caps: Caps, trace: seq<Timed>)
    requires Monotone(trace)
    ensures var w := Run(caps, trace); Gaps(w.defs, w.history, Clock(trace))
  {
    hide Gaps, Advance;
    if trace == [] {
      NothingYet();
    } else {
      var n := |trace| - 1;
      var w := Run(caps, trace[..n]);
      RunGaps(caps, trace[..n]);
      LaterGaps(w.defs, w.history, Clock(trace[..n]), trace[n].at);
      StepGaps(caps, w, trace[n].step, trace[n].at);
    }
  }

  /** Over every trace, whatever submissions and writes fail: after an attempt that left its mark, manual or
      scheduled, started or refused, no scheduled attempt of the definition comes within the interval, not even
      across re-authorisations. */
  lemma KeptAttemptsAreRespected(caps: Caps, trace: seq<Timed>)
    requires Monotone(trace)
    ensures SpacedFromKept(Run(caps, trace).history)
  {
    hide Run, SpacedFromKept;
    RunGaps(caps, trace);
  }

  /** So attempts are spaced exactly when no scheduled attempt comes within the interval of one whose writes were
      all lost; in particular when none was lost. */
  lemma SpacedExactlyWhenLostAreSpared(caps: Caps, trace: seq<Timed>)
    requires Monotone(trace)
    ensures var h := Run(caps, trace).history;
            && (Spaced(h) <==> SpacedFromLost(h))
            && ((forall e :: e in h && e.Attempted? ==> e.kept) ==> Spaced(h))
  {
    hide Run;
    KeptAttemptsAreRespected(caps, trace);
    var h := Run(caps, trace).history;
    if forall e :: e in h && e.Attempted? ==> e.kept {
      forall j | 0 <= j < |h| && h[j].Attempted? ensures h[j].kept { assert h[j] in h; }
    }
  }

  // ----- what one turn does -----

  /** A scheduled attempt pushes the next one out exactly when one of the writes it makes succeeds. */
  lemma PushedOutExactlyWhenKept(defs: Definitions, d: Definition, now: int, luck: Luck)
    requires Keyed(defs) && d.id in defs && defs[d.id] == d && Attempts(d, now)
    ensures TurnDefs(defs, d, now, luck)[d.id].nextRunAt >= now + DAY * d.intervalDays <==> Kept(luck)
  {
    TurnEffect(defs, d, now, luck);
  }

  /** Why the writes matter, for a scheduled attempt: when none is kept, nothing changes, so any later tick
      before the interval is over attempts again if the window is still open. */
  lemma UnkeptAttemptRepeats(defs: Definitions, h: seq<Event>, d: Definition, now: int, later: int, luck: Luck, again: Luck)
    requires Keyed(defs) && d.id in defs && defs[d.id] == d
    requires Attempts(d, now) && !Kept(luck) && Attempts(d, later) && now <= later < now + DAY * d.intervalDays
    ensures TurnDefs(defs, d, now, luck) == defs
    ensures !Spaced(h + TurnEvents(defs, d, now, luck) + TurnEvents(defs, d, later, again))
  {
    hide TurnDefs, TurnEvents, Attempts;
    TurnEffect(defs, d, now, luck);
    TurnEffect(defs, d, later, again);
    assert TurnDefs(defs, d, now, luck) == defs by { UnkeptChangesNothing(defs, d, now, luck); }
    var t := h + TurnEvents(defs, d, now, luck) + TurnEvents(defs, d, later, again);
    assert !FarEnough(t[|h|], t[|h| + 1]);
  }

  lemma UnkeptChangesNothing(defs: Definitions, d: Definition, now: int, luck: Luck)
    requires Keyed(defs) && d.id in defs && defs[d.id] == d && Attempts(d, now) && !Kept(luck)
    ensures TurnDefs(defs, d, now, luck) == defs
  {
  }

  const ANY_CAPS := Caps(true, ["p"], ["p"], 0, 0)

  const DRAFT := Definition("", "", "n", "p", ["t"], [], "", "o", "", 0, 0, 1, 0, "", 0, "", "", true, 0)

  const WEAK := Luck(Some("j"), "", false, true)

  const SAVED := World(map["d" := Fresh(DRAFT, "d", 1)], ["d"], [Affirmed("d", 1, 90)])

  const RUN_BY_HAND := SAVED.(history := [Affirmed("d", 1, 90), Attempted("d", DAY, false, true, 1, false)])

  lemma RunSnoc(caps: Caps, trace: seq<Timed>, t: Timed)
    ensures Run(caps, trace + [t]) == Advance(caps, Run(caps, trace), t.step, t.at)
  {
    hide Advance;
    assert (trace + [t])[..|trace|] == trace;
  }

  lemma SavedFirst()
    ensures Advance(ANY_CAPS, GENESIS, Save(DRAFT, "d", true), 1) == SAVED
  {
    hide SaveRefusal, Fresh, Term;
    DraftIsFine();
    DraftTerm();
  }

  lemma DraftTerm()
    ensures Term(Fresh(DRAFT, "d", 1)) == 90
  {
  }

  lemma ThenByHand()
    ensures Keyed(SAVED.defs) && Advance(ANY_CAPS, SAVED, Manual("d", WEAK), DAY) == RUN_BY_HAND
  {
    hide LapsedText;
  }

  lemma ThenByTick(luck: string -> Luck)
    requires luck("d") == WEAK
    ensures Keyed(RUN_BY_HAND.defs)
    ensures Advance(ANY_CAPS, RUN_BY_HAND, Tick(luck), DAY + 2).history
            == RUN_BY_HAND.history + [Attempted("d", DAY + 2, true, true, 1, true)]
  {
    hide TurnDefs, TurnEvents, Turns, TurnStarted;
    var d := RUN_BY_HAND.defs["d"];
    var t0 := TickState(RUN_BY_HAND.defs, RUN_BY_HAND.history, 0);
    assert DefinitionsListed(t0.defs, ["d"], "") == [d] by {
      assert ["d"][..0] == [];
      assert DefinitionsListed(t0.defs, [], "") == [];
    }
    TurnsSnoc(t0, [], d, DAY + 2, luck);
    assert [] + [d] == [d];
    NoTurns(t0, DAY + 2, luck);
    TurnEffect(t0.defs, d, DAY + 2, WEAK);
  }

  /** And for a manual one: saved with an interval of a day, run by hand a second before it is due while the
      definition cannot be written, and attempted again two seconds later. */
  lemma UnrecordedManualRunIsRepeated(luck: string -> Luck)
    requires luck("d") == WEAK
    ensures var trace := [Timed(1, Save(DRAFT, "d", true)), Timed(DAY, Manual("d", WEAK)), Timed(DAY + 2, Tick(luck))];
            Monotone(trace) && !Spaced(Run(ANY_CAPS, trace).history)
  {
    hide Advance, Spaced, Run;
    var s0, s1, s2 := Timed(1, Save(DRAFT, "d", true)), Timed(DAY, Manual("d", WEAK)), Timed(DAY + 2, Tick(luck));
    RunSnoc(ANY_CAPS, [], s0);
    RunSnoc(ANY_CAPS, [s0], s1);
    RunSnoc(ANY_CAPS, [s0, s1], s2);
    assert [] + [s0] == [s0] && [s0] + [s1] == [s0, s1] && [s0, s1] + [s2] == [s0, s1, s2];
    assert Run(ANY_CAPS, []) == GENESIS by { RunNothing(ANY_CAPS); }
    SavedFirst();
    ThenByHand();
    ThenByTick(luck);
    TooSoon(Run(ANY_CAPS, [s0, s1, s2]).history);
  }

  lemma RunNothing(caps: Caps)
    ensures Run(caps, []) == GENESIS
  {
  }

  lemma TooSoon(h: seq<Event>)
    requires |h| == 3 && h[1] == Attempted("d", DAY, false, true, 1, false) && h[2] == Attempted("d", DAY + 2, true, true, 1, true)
    ensures !Spaced(h)
  {
    assert !FarEnough(h[1], h[2]);
  }

  lemma NoTurns(s: TickState, now: int, luck: string -> Luck)
    requires Keyed(s.defs)
    ensures Turns(s, [], now, luck) == s
  {
  }

  lemma DraftIsFine()
    ensures SaveRefusal(ANY_CAPS, 0, DRAFT).None?
  {
    assert Trimmed("n") && Trimmed("o");
    assert TrimSpace("n") == "n" && TrimSpace("o") == "o";
  }

  // ----- what a tick does to one definition -----

  ghost predicate Attempt(e: Event, d: Definition, now: int) {
    e.Attempted? && e.id == d.id && e.at == now && e.scheduled && e.days == d.intervalDays
  }

  ghost predicate AttemptAfter(h: seq<Event>, n: nat, d: Definition, now: int) {
    exists k :: n <= k < |h| && Attempt(h[k], d, now)
  }

  /** A tick attempts a listed definition exactly when it is due inside its window, and says so in the history. */
  lemma {:induction false} TickAttempts(s: TickState, listed: seq<Definition>, now: int, luck: string -> Luck, id: string)
    requires Keyed(s.defs) && Current(s.defs, listed) && id in s.defs
    ensures var t := Turns(s, listed, now, luck);
            && s.history <= t.history
            && (id in IdsOf(listed) && Attempts(s.defs[id], now) ==> AttemptAfter(t.history, |s.history|, s.defs[id], now))
            && (forall k :: |s.history| <= k < |t.history| && t.history[k].id == id ==>
                 Attempts(s.defs[id], now) && Attempt(t.history[k], s.defs[id], now))
  {
    hide TurnDefs, TurnEvents, TurnStarted, Current, Attempts, AttemptAfter;
    if listed == [] {
      assert IdsOf(listed) == [];
    } else {
      var n := |listed| - 1;
      var d := listed[n];
      CurrentPrefix(s.defs, listed);
      assert IdsOf(listed) == IdsOf(listed[..n]) + [d.id] by { SplitLast(listed); MapSnoc(DefinitionId, listed[..n], d); }
      var t := Turns(s, listed[..n], now, luck);
      TickAttempts(s, listed[..n], now, luck, id);
      TurnsElsewhere(s, listed[..n], now, luck, d.id);
      TurnEffect(t.defs, d, now, luck(d.id));
      AttemptsExtend(t.history, TurnEvents(t.defs, d, now, luck(d.id)), |s.history|, s.defs[id], now);
      if id == d.id && Attempts(d, now) {
        assert Attempt(TurnEvents(t.defs, d, now, luck(d.id))[0], d, now);
      }
    }
  }

  lemma AttemptsExtend(h: seq<Event>, more: seq<Event>, n: nat, d: Definition, now: int)
    requires n <= |h|
    ensures AttemptAfter(h, n, d, now) ==> AttemptAfter(h + more, n, d, now)
    ensures more != [] && Attempt(more[0], d, now) ==> AttemptAfter(h + more, n, d, now)
  {
    if AttemptAfter(h, n, d, now) {
      var k :| n <= k < |h| && Attempt(h[k], d, now);
      assert (h + more)[k] == h[k];
    }
    if more != [] {
      assert (h + more)[|h|] == more[0];
    }
  }

  lemma TickOnWorld(caps: Caps, w: World, now: int, luck: string -> Luck, id: string)
    requires Sound(w) && id in w.defs
    ensures var v := Advance(caps, w, Tick(luck), now);
            && w.history <= v.history
            && (Attempts(w.defs[id], now) ==> AttemptAfter(v.history, |w.history|, w.defs[id], now))
            && (forall k :: |w.history| <= k < |v.history| && v.history[k].id == id ==>
                 Attempts(w.defs[id], now) && Attempt(v.history[k], w.defs[id], now))
  {
    hide Turns, DefinitionsListed, Attempts, AttemptAfter, Attempt;
    ListedCurrent(w.defs, w.order);
    TickAttempts(TickState(w.defs, w.history, 0), DefinitionsListed(w.defs, w.order, ""), now, luck, id);
  }

  // ----- a manual run nobody could write down -----

  /** A tick at `t` after `trace` attempts something too soon after event `j`. */
  ghost predicate TickTooSoon(caps: Caps, trace: seq<Timed>, j: nat, t: int, luck: string -> Luck) {
    var h := Run(caps, trace + [Timed(t, Tick(luck))]).history;
    j < |h| && exists k :: j < k < |h| && !FarEnough(h[j], h[k])
  }

  lemma LostRunChangesNothing(caps: Caps, trace: seq<Timed>, id: string, now: int, luck: Luck)
    requires RunResultOf(Run(caps, trace).defs, id, now, luck).RanUnrecorded?
    ensures var w, v := Run(caps, trace), Run(caps, trace + [Timed(now, Manual(id, luck))]);
            && id in w.defs && v.defs == w.defs && v.order == w.order
            && v.history == w.history + [Attempted(id, now, false, true, w.defs[id].intervalDays, false)]
            && w.defs[id].enabled && w.defs[id].AuthorisationValid(now) && w.defs[id].id == id
  {
    hide Run, LapsedText;
    RunSnoc(caps, trace, Timed(now, Manual(id, luck)));
  }

  /** After a manual run whose definition could not be written, some later tick attempts the definition again within
      the interval exactly when the definition is already scheduled within it and within its window. */
  lemma LostManualRunIsRepeatedExactlyWhen(caps: Caps, trace: seq<Timed>, id: string, now: int, luck: Luck)
    requires RunResultOf(Run(caps, trace).defs, id, now, luck).RanUnrecorded?
    requires Run(caps, trace).defs[id].intervalDays > 0
    ensures var w := Run(caps, trace);
            var d := w.defs[id];
            (exists t: int, again: string -> Luck ::
               now <= t && TickTooSoon(caps, trace + [Timed(now, Manual(id, luck))], |w.history|, t, again)) <==>
            d.nextRunAt != ZERO_TIME && d.nextRunAt < now + DAY * d.intervalDays && d.nextRunAt < d.AuthorisationExpires()
  {
    hide Run, Advance, RunResultOf;
    LostRunChangesNothing(caps, trace, id, now, luck);
    var w := Run(caps, trace);
    var d := w.defs[id];
    var lost := trace + [Timed(now, Manual(id, luck))];
    if d.nextRunAt != ZERO_TIME && d.nextRunAt < now + DAY * d.intervalDays && d.nextRunAt < d.AuthorisationExpires() {
      var t := if d.nextRunAt < now then now else d.nextRunAt;
      var again := (i: string) => luck;
      NextTick(caps, lost, id, t, again);
      RepeatedTooSoon(caps, lost, d, |w.history|, now, t, again);
    }
    forall t: int, again: string -> Luck | now <= t && TickTooSoon(caps, lost, |w.history|, t, again)
      ensures d.nextRunAt != ZERO_TIME && d.nextRunAt < now + DAY * d.intervalDays && d.nextRunAt < d.AuthorisationExpires() {
      NextTick(caps, lost, id, t, again);
    }
  }

  lemma NextTick(caps: Caps, trace: seq<Timed>, id: string, t: int, luck: string -> Luck)
    requires id in Run(caps, trace).defs
    ensures var w, v := Run(caps, trace), Run(caps, trace + [Timed(t, Tick(luck))]);
            && w.history <= v.history
            && (Attempts(w.defs[id], t) ==> AttemptAfter(v.history, |w.history|, w.defs[id], t))
            && (forall k :: |w.history| <= k < |v.history| && v.history[k].id == id ==>
                 Attempts(w.defs[id], t) && Attempt(v.history[k], w.defs[id], t))
  {
    hide Run, Advance, Attempts, AttemptAfter, Attempt;
    RunSnoc(caps, trace, Timed(t, Tick(luck)));
    TickOnWorld(caps, Run(caps, trace), t, luck, id);
  }

  lemma RepeatedTooSoon(caps: Caps, lost: seq<Timed>, d: Definition, j: nat, now: int, t: int, again: string -> Luck)
    requires var v := Run(caps, lost);
             |v.history| == j + 1 && v.history[j].Attempted? && v.history[j].id == d.id && v.history[j].at == now
    requires Run(caps, lost).history <= Run(caps, lost + [Timed(t, Tick(again))]).history
    requires AttemptAfter(Run(caps, lost + [Timed(t, Tick(again))]).history, j + 1, d, t)
    requires t < now + DAY * d.intervalDays
    ensures TickTooSoon(caps, lost, j, t, again)
  {
    hide Run;
    var h := Run(caps, lost + [Timed(t, Tick(again))]).history;
    assert h[j] == Run(caps, lost).history[j];
    var k :| j + 1 <= k < |h| && Attempt(h[k], d, t);
    assert !FarEnough(h[j], h[k]);
  }

  // ----- after a lapse -----

  /** The step neither affirms, saves nor deletes the definition. */
  predicate LeavesTerms(s: Step, id: string) {
    match s
    case Save(_, i, _) => i != id
    case Affirm(i, _, _, _, _) => i != id
    case Delete(i, _) => i != id
    case _ => true
  }

  function Stopped(d: Definition): Definition { d.(lastSkipReason := LapseReason(d)) }

  /** The tick writes down why the definition stands still. */
  predicate Notes(s: Step, d: Definition, now: int) {
    s.Tick? && Due(d, now) && s.luck(d.id).firstWrite
  }

  ghost predicate Silent(h: seq<Event>, n: nat, id: string) {
    forall k :: n <= k < |h| ==> h[k].id != id
  }

  /** A lapsed definition in a tick: no attempt, and at most the reason is written. */
  lemma {:induction false} LapsedTick(s: TickState, listed: seq<Definition>, now: int, luck: string -> Luck, id: string)
    requires Keyed(s.defs) && Current(s.defs, listed) && id in s.defs && !s.defs[id].AuthorisationValid(now)
    ensures var t, d := Turns(s, listed, now, luck), s.defs[id];
            && t.defs[id] == if id in IdsOf(listed) && Due(d, now) && luck(id).firstWrite then Stopped(d) else d
  {
    hide TurnEvents, TurnStarted, Current, AfterRun, RunResultOf, LapseReason, Definition.AuthorisationValid;
    if listed == [] {
      assert IdsOf(listed) == [];
    } else {
      var n := |listed| - 1;
      var d := listed[n];
      CurrentPrefix(s.defs, listed);
      assert IdsOf(listed) == IdsOf(listed[..n]) + [d.id] by { SplitLast(listed); MapSnoc(DefinitionId, listed[..n], d); }
      LapsedTick(s, listed[..n], now, luck, id);
      TurnsElsewhere(s, listed[..n], now, luck, d.id);
      if d.id != id {
        TurnEffect(Turns(s, listed[..n], now, luck).defs, d, now, luck(d.id));
      }
    }
  }

  lemma LapsedStep(caps: Caps, w: World, s: Step, now: int, id: string)
    requires Sound(w) && id in w.defs && !w.defs[id].AuthorisationValid(now) && LeavesTerms(s, id)
    ensures var v, d := Advance(caps, w, s, now), w.defs[id];
            && id in v.defs && v.defs[id] == (if Notes(s, d, now) then Stopped(d) else d)
            && w.history <= v.history && Silent(v.history, |w.history|, id)
  {
    hide Turns, DefinitionsListed, SaveRefusal, Fresh, Reaffirmed, LapseReason, Due, LapsedText, Definition.AuthorisationValid, Term;
    match s
    case Tick(luck) =>
      ListedCurrent(w.defs, w.order);
      LapsedTick(TickState(w.defs, w.history, 0), DefinitionsListed(w.defs, w.order, ""), now, luck, id);
      TickOnWorld(caps, w, now, luck, id);
    case Manual(i, luck) =>
      if i in w.defs {
        ManualEffect(w.defs, i, now, luck);
      } else {
        NothingToRun(w.defs, i, now, luck);
      }
      ManualOnLapsed(w.defs, i, id, now, luck);
    case _ =>
  }

  lemma ManualOnLapsed(defs: Definitions, i: string, id: string, now: int, luck: Luck)
    requires Keyed(defs) && id in defs && !defs[id].AuthorisationValid(now)
    ensures AfterRun(defs, i, now, luck).Keys == defs.Keys && AfterRun(defs, i, now, luck)[id] == defs[id]
    ensures forall e :: e in RunEvents(defs, i, now, false, luck) ==> e.id != id
  {
    hide LapsedText;
  }

  lemma StillLapsed(d: Definition, earlier: int, now: int)
    requires !d.AuthorisationValid(earlier) && earlier <= now
    ensures !d.AuthorisationValid(now) && !Stopped(d).AuthorisationValid(now)
    ensures Due(Stopped(d), now) == Due(d, now) && Stopped(Stopped(d)) == Stopped(d) && Stopped(d).id == d.id
  {
    hide Day;
  }

  /** A lapsed authorisation stops the schedule for good, and manual runs with it: until somebody affirms the
      definition again, nothing of it is attempted; the only change is the reason, which stands from the first due
      tick whose write succeeds. */
  lemma {:induction false} LapseStopsTheSchedule(caps: Caps, trace: seq<Timed>, n: nat, id: string)
    requires Monotone(trace) && n <= |trace| && id in Run(caps, trace[..n]).defs
    requires n < |trace| ==> !Run(caps, trace[..n]).defs[id].AuthorisationValid(trace[n].at)
    requires forall k :: n <= k < |trace| ==> LeavesTerms(trace[k].step, id)
    ensures var w, v := Run(caps, trace[..n]), Run(caps, trace);
            var d := w.defs[id];
            && id in v.defs && w.history <= v.history && Silent(v.history, |w.history|, id)
            && v.defs[id] == if exists k :: n <= k < |trace| && Notes(trace[k].step, d, trace[k].at) then Stopped(d) else d
  {
    hide Run, Advance, LeavesTerms, Notes, Stopped, Definition.AuthorisationValid;
    if n == |trace| {
      assert trace[..n] == trace;
    } else {
      var m := |trace| - 1;
      var d := Run(caps, trace[..n]).defs[id];
      assert trace[..m][..n] == trace[..n];
      assert forall k :: n <= k < m ==> trace[..m][k] == trace[k];
      LapseStopsTheSchedule(caps, trace[..m], n, id);
      RunSnoc(caps, trace[..m], trace[m]);
      assert trace[..m] + [trace[m]] == trace;
      var w := Run(caps, trace[..m]);
      StillLapsed(d, trace[n].at, trace[m].at);
      LapsedStep(caps, w, trace[m].step, trace[m].at, id);
      NotesAlike(trace[m].step, d, trace[m].at);
    }
  }

  lemma NotesAlike(s: Step, d: Definition, now: int)
    ensures Notes(s, Stopped(d), now) == Notes(s, d, now)
  {
    hide LapseReason;
  }

  // ----- after a re-affirmation -----

  /** The step has nothing to do with the definition. */
  predicate LeavesAlone(s: Step, id: string) {
    match s
    case Save(_, i, _) => i != id
    case Tick(_) => false
    case Manual(i, _) => i != id
    case Affirm(i, _, _, _, _) => i != id
    case Delete(i, _) => i != id
  }

  lemma AloneStep(caps: Caps, w: World, s: Step, now: int, id: string)
    requires Sound(w) && id in w.defs && LeavesAlone(s, id)
    ensures id in Advance(caps, w, s, now).defs && Advance(caps, w, s, now).defs[id] == w.defs[id]
  {
    hide Turns, SaveRefusal, Fresh, Reaffirmed, LapsedText, Term;
    match s
    case Manual(i, luck) =>
      if i in w.defs {
        ManualEffect(w.defs, i, now, luck);
      } else {
        NothingToRun(w.defs, i, now, luck);
      }
    case _ =>
  }

  lemma {:induction false} AloneSteps(caps: Caps, trace: seq<Timed>, n: nat, id: string)
    requires n <= |trace| && id in Run(caps, trace[..n]).defs
    requires forall k :: n <= k < |trace| ==> LeavesAlone(trace[k].step, id)
    ensures id in Run(caps, trace).defs && Run(caps, trace).defs[id] == Run(caps, trace[..n]).defs[id]
  {
    hide Run, Advance, LeavesAlone;
    if n == |trace| {
      assert trace[..n] == trace;
    } else {
      var m := |trace| - 1;
      assert trace[..m][..n] == trace[..n];
      assert forall k :: n <= k < m ==> trace[..m][k] == trace[k];
      AloneSteps(caps, trace[..m], n, id);
      RunSnoc(caps, trace[..m], trace[m]);
      assert trace[..m] + [trace[m]] == trace;
      AloneStep(caps, Run(caps, trace[..m]), trace[m].step, trace[m].at, id);
    }
  }

  lemma AffirmedDefinition(caps: Caps, w: World, id: string, operator: string, days: int, now: int)
    requires Sound(w) && id in w.defs && operator != ""
    ensures Advance(caps, w, Affirm(id, operator, true, days, true), now).defs == w.defs[id := Reaffirmed(w.defs[id], operator, days, now)]
  {
    hide Reaffirmed, Term;
  }

  lemma ReaffirmedAttempts(d: Definition, operator: string, days: int, now: int, later: int)
    requires d.enabled && d.intervalDays > 0 && ZERO_TIME < now <= later && d.nextRunAt <= now
    ensures var x := Reaffirmed(d, operator, days, now);
            x.id == d.id && (Attempts(x, later) <==> later < now + DAY * Term(x))
  {
  }

  /** Re-affirming an overdue definition resumes it: the first tick afterwards attempts a run exactly when it comes
      inside the new window, whatever happens to other definitions in between. */
  lemma ReaffirmingResumes(caps: Caps, trace: seq<Timed>, n: nat, id: string, operator: string, days: int, t: int, luck: string -> Luck)
    requires n < |trace| && trace[n].step == Affirm(id, operator, true, days, true) && operator != ""
    requires Monotone(trace + [Timed(t, Tick(luck))]) && forall k :: n < k < |trace| ==> LeavesAlone(trace[k].step, id)
    requires var w := Run(caps, trace[..n]);
             id in w.defs && w.defs[id].enabled && w.defs[id].intervalDays > 0 && w.defs[id].nextRunAt <= trace[n].at
    ensures var x := Reaffirmed(Run(caps, trace[..n]).defs[id], operator, days, trace[n].at);
            var w, v := Run(caps, trace), Run(caps, trace + [Timed(t, Tick(luck))]);
            t < trace[n].at + DAY * Term(x) <==> AttemptAfter(v.history, |w.history|, x, t)
  {
    hide Run, Advance, LeavesAlone, Reaffirmed, Attempts, Attempt, Term;
    var w := Run(caps, trace[..n]);
    var now := trace[n].at;
    TakeNext(trace, n);
    RunSnoc(caps, trace[..n], trace[n]);
    AffirmedDefinition(caps, w, id, operator, days, now);
    AloneSteps(caps, trace, n + 1, id);
    var all := trace + [Timed(t, Tick(luck))];
    assert all[n] == trace[n] && all[|trace|] == Timed(t, Tick(luck));
    ReaffirmedAttempts(w.defs[id], operator, days, now, t);
    SoundIds(w, id);
    NextTick(caps, trace, id, t, luck);
    var x := Reaffirmed(w.defs[id], operator, days, now);
    AttemptIsIts(Run(caps, all).history, |Run(caps, trace).history|, x, t);
  }

  lemma SoundIds(w: World, id: string)
    requires Sound(w) && id in w.defs
    ensures w.defs[id].id == id
  {
  }

  lemma AttemptIsIts(h: seq<Event>, n: nat, d: Definition, now: int)
    ensures AttemptAfter(h, n, d, now) ==> exists k :: n <= k < |h| && h[k].id == d.id
  {
    if AttemptAfter(h, n, d, now) {
      var k :| n <= k < |h| && Attempt(h[k], d, now);
      assert h[k].id == d.id;
    }
  }
}
