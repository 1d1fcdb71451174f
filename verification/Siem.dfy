/** internal/siemexport/siemexport.go with `DeltaFor` and `afterRun` of internal/orchestrator/definition.go:
    a run is exported as transitions only, and the receiver rebuilds what is open by replaying them. */
module Siem {
  import opened Text
  import opened Ordering
  import opened Findings
  import opened Records
  import opened Store
  import opened Correlate
  import opened Delta

  // ----- events of one comparison -----

  datatype Event = Opened(id: string, severity: Severity) | Closed(id: string)

  /** What one entry sends, if anything. Without a baseline every finding opens. */
  function EventFor(hasBaseline: bool, e: Entry): seq<Event> {
    var change := if hasBaseline then e.change else New;
    match change
    case New => [Opened(e.finding.id, e.finding.severity)]
    case Regressed => [Opened(e.finding.id, e.finding.severity)]
    case Resolved => [Closed(e.finding.id)]
    case Improved => []
    case Persisting => []
  }

  function EventsOf(hasBaseline: bool, es: seq<Entry>): seq<Event> {
    if es == [] then []
    else EventsOf(hasBaseline, es[..|es| - 1]) + EventFor(hasBaseline, es[|es| - 1])
  }

  method Events(res: Result) returns (out: seq<Event>)
    ensures out == EventsOf(res.HasBaseline(), res.entries)
  {
    out := [];
    for i := 0 to |res.entries|
      invariant out == EventsOf(res.HasBaseline(), res.entries[..i])
    {
      assert res.entries[..i + 1][..i] == res.entries[..i];
      var e := res.entries[i];
      var change := e.change;
      if !res.HasBaseline() {
        change := New;
      }
      match change {
        case New => out := out + [Opened(e.finding.id, e.finding.severity)];
        case Regressed => out := out + [Opened(e.finding.id, e.finding.severity)];
        case Resolved => out := out + [Closed(e.finding.id)];
        case Improved =>
        case Persisting =>
      }
    }
    assert res.entries[..|res.entries|] == res.entries;
  }

  // ----- the receiver -----

  /** What is open, with the severity last sent for it. */
  type OpenSet = map<string, Severity>

  function Receive(open: OpenSet, ev: Event): OpenSet {
    match ev
    case Opened(id, s) => open[id := s]
    case Closed(id) => open - {id}
  }

  function Replay(open: OpenSet, evs: seq<Event>): OpenSet {
    if evs == [] then open else Receive(Replay(open, evs[..|evs| - 1]), evs[|evs| - 1])
  }

  lemma {:induction false} ReplayConcat(open: OpenSet, a: seq<Event>, b: seq<Event>)
    ensures Replay(open, a + b) == Replay(Replay(open, a), b)
  {
    if b == [] {
      assert a + b == a;
    } else {
      assert (a + b)[..|a + b| - 1] == a + b[..|b| - 1];
      ReplayConcat(open, a, b[..|b| - 1]);
    }
  }

  function Touch(hasBaseline: bool, e: Entry, open: OpenSet): OpenSet {
    Replay(open, EventFor(hasBaseline, e))
  }

  lemma TouchMeaning(hasBaseline: bool, e: Entry, open: OpenSet)
    ensures var c := if hasBaseline then e.change else New;
            Touch(hasBaseline, e, open) ==
            (if c == New || c == Regressed then open[e.finding.id := e.finding.severity]
             else if c == Resolved then open - {e.finding.id}
             else open)
  {
    assert forall v: Event :: [v][..0] == [];
    assert forall v: Event :: Replay(open, [v]) == Receive(open, v);
  }

  lemma ReplayEntriesSnoc(hasBaseline: bool, open: OpenSet, es: seq<Entry>, e: Entry)
    ensures Replay(open, EventsOf(hasBaseline, es + [e])) == Touch(hasBaseline, e, Replay(open, EventsOf(hasBaseline, es)))
  {
    assert (es + [e])[..|es|] == es;
    ReplayConcat(open, EventsOf(hasBaseline, es), EventFor(hasBaseline, e));
  }

  ghost predicate OpensIn(hasBaseline: bool, es: seq<Entry>, id: string, s: Severity) {
    exists e :: e in es && e.finding.id == id && e.finding.severity == s
      && (!hasBaseline || e.change == New || e.change == Regressed)
  }

  ghost predicate ClosesIn(hasBaseline: bool, es: seq<Entry>, id: string) {
    hasBaseline && exists e :: e in es && e.finding.id == id && e.change == Resolved
  }

  ghost predicate QuietIn(hasBaseline: bool, es: seq<Entry>, id: string) {
    forall e :: e in es && e.finding.id == id ==> hasBaseline && (e.change == Improved || e.change == Persisting)
  }

  /** With each identity placed once, the order of the entries does not matter to the receiver: each
      identity is opened with its severity, closed, or left as it was. */
  lemma {:induction false} ReplayOfEntries(hasBaseline: bool, open: OpenSet, es: seq<Entry>)
    requires NoDuplicates(EntryIds(es))
    ensures var after := Replay(open, EventsOf(hasBaseline, es));
            && (forall id, s :: OpensIn(hasBaseline, es, id, s) ==> id in after && after[id] == s)
            && (forall id :: ClosesIn(hasBaseline, es, id) ==> id !in after)
            && (forall id :: QuietIn(hasBaseline, es, id) ==>
                 (id in after <==> id in open) && (id in after ==> after[id] == open[id]))
  {
    hide EventsOf, Touch;
    if es == [] {
      assert EventsOf(hasBaseline, es) == [] by { NoEvents(hasBaseline); }
    } else {
      var n := |es| - 1;
      var e := es[n];
      SplitLast(es);
      assert EntryIds(es[..n]) == EntryIds(es)[..n];
      ReplayOfEntries(hasBaseline, open, es[..n]);
      ReplayEntriesSnoc(hasBaseline, open, es[..n], e);
      TouchMeaning(hasBaseline, e, Replay(open, EventsOf(hasBaseline, es[..n])));
      forall x | x in es[..n] ensures x.finding.id != e.finding.id {
        var k :| 0 <= k < n && es[..n][k] == x;
        assert EntryIds(es)[k] != EntryIds(es)[n];
      }
      LastEntryRules(hasBaseline, es);
    }
  }

  lemma NoEvents(hasBaseline: bool)
    ensures EventsOf(hasBaseline, []) == []
  {
  }

  /** How the verdicts on a list follow from those on all but its last entry. */
  lemma LastEntryRules(hasBaseline: bool, es: seq<Entry>)
    requires es != [] && forall x :: x in es[..|es| - 1] ==> x.finding.id != es[|es| - 1].finding.id
    ensures var n, e := |es| - 1, es[|es| - 1];
            && (forall id, s :: OpensIn(hasBaseline, es, id, s) <==>
                 OpensIn(hasBaseline, es[..n], id, s) ||
                 (id == e.finding.id && s == e.finding.severity && (!hasBaseline || e.change == New || e.change == Regressed)))
            && (forall id :: ClosesIn(hasBaseline, es, id) <==>
                 ClosesIn(hasBaseline, es[..n], id) || (hasBaseline && id == e.finding.id && e.change == Resolved))
            && (forall id :: QuietIn(hasBaseline, es, id) <==>
                 QuietIn(hasBaseline, es[..n], id) &&
                 (id == e.finding.id ==> hasBaseline && (e.change == Improved || e.change == Persisting)))
            && (forall id, s :: OpensIn(hasBaseline, es[..n], id, s) ==> id != e.finding.id)
            && (forall id :: ClosesIn(hasBaseline, es[..n], id) ==> id != e.finding.id)
  {
    SplitLast(es);
  }

  // ----- one run after another -----

  /** The receiver holds exactly the identities of a run, none at a severity below its current one. */
  ghost predicate Mirrors(open: OpenSet, run: seq<Finding>) {
    && open.Keys == SetOf(Ids(run))
    && forall f :: f in run ==> f.id in open && open[f.id].Rank() >= f.severity.Rank()
  }

  function Export(baseline: seq<Finding>, current: seq<Finding>, baselineId: string): seq<Event> {
    EventsOf(baselineId != "", CompareRuns(baseline, current, baselineId, "", 0, 0).entries)
  }

  lemma FirstRunEntries(current: seq<Finding>)
    requires DistinctIds(current)
    ensures var sorted := SortEntries(MapSeq(Unchanged, current));
            && NoDuplicates(EntryIds(sorted))
            && (forall id :: id in EntryIds(sorted) <==> id in Ids(current))
            && (forall f :: f in current ==> Unchanged(f) in sorted)
  {
    hide EntryLeq, SortBy;
    var es := MapSeq(Unchanged, current);
    var sorted := SortEntries(es);
    assert EntryIds(es) == Ids(current);
    MapPermutes(EntryId, es, sorted);
    NoDuplicatesPermutes(EntryIds(es), EntryIds(sorted));
    SameElements(es, sorted);
    SameElements(EntryIds(es), EntryIds(sorted));
    forall f | f in current ensures Unchanged(f) in sorted {
      var k :| 0 <= k < |current| && current[k] == f;
      assert es[k] in es;
    }
  }

  lemma FirstRunOpensAll(current: seq<Finding>)
    requires DistinctIds(current)
    ensures Mirrors(Replay(map[], Export([], current, "")), current)
  {
    hide EventsOf, SortEntries, Replay, EntryIds, Count;
    var sorted := SortEntries(MapSeq(Unchanged, current));
    FirstRunEntries(current);
    ReplayOfEntries(false, map[], sorted);
    var after := Replay(map[], EventsOf(false, sorted));
    forall f | f in current ensures f.id in after && after[f.id] == f.severity {
      assert Unchanged(f) in sorted;
      assert OpensIn(false, sorted, f.id, f.severity);
    }
    forall id ensures id in after <==> id in Ids(current) {
      if id in Ids(current) {
        var k :| 0 <= k < |current| && Ids(current)[k] == id;
        assert current[k] in current;
      } else {
        forall e | e in sorted ensures e.finding.id != id { EntryIdIn(sorted, e); }
        assert QuietIn(false, sorted, id);
      }
    }
  }

  lemma SortedEntriesKeep(baseline: seq<Finding>, current: seq<Finding>)
    requires DistinctIds(baseline) && DistinctIds(current)
    ensures var es := SortEntries(Entries(baseline, current));
            && NoDuplicates(EntryIds(es))
            && (forall e :: e in es <==> e in Entries(baseline, current))
            && SetOf(EntryIds(es)) == Union(baseline, current)
  {
    hide Entries, EntryLeq, SortBy;
    var es := Entries(baseline, current);
    EveryIdentityPlacedOnce(baseline, current);
    MapPermutes(EntryId, es, SortEntries(es));
    NoDuplicatesPermutes(EntryIds(es), EntryIds(SortEntries(es)));
    SameElements(es, SortEntries(es));
    SameElements(EntryIds(es), EntryIds(SortEntries(es)));
  }

  /** What the receiver holds for one identity after a run with a baseline, whatever it held before. */
  lemma ReplayRun(open: OpenSet, baseline: seq<Finding>, current: seq<Finding>, baselineId: string, id: string)
    requires DistinctIds(baseline) && DistinctIds(current) && baselineId != ""
    ensures var after := Replay(open, Export(baseline, current, baselineId));
            var was, now := Lookup(baseline, id), Lookup(current, id);
            && (now.Some? && (was.None? || ChangeFrom(was.value, now.value) == Regressed) ==>
                 id in after && after[id] == now.value.severity)
            && (was.Some? && now.None? ==> id !in after)
            && ((was.None? && now.None?) || (was.Some? && now.Some? && ChangeFrom(was.value, now.value) != Regressed) ==>
                 (id in after <==> id in open) && (id in after ==> after[id] == open[id]))
  {
    hide Entries, EventsOf, EntryLeq, SortBy, Replay, Lookup, Count, CountChanges;
    var es := SortEntries(Entries(baseline, current));
    SortedEntriesKeep(baseline, current);
    EveryIdentityPlacedOnce(baseline, current);
    ReplayOfEntries(true, open, es);
    LookupOut(baseline, id);
    LookupOut(current, id);
    if id in EntryIds(es) {
      var k :| 0 <= k < |es| && EntryIds(es)[k] == id;
      var e := es[k];
      assert e in es && e.finding.id == id;
      OnlyEntry(es, e);
      EntryOrigin(baseline, current, e);
      if e.finding in current {
        LookupIn(current, e.finding);
        assert e.change == New || e.change == Regressed ==> OpensIn(true, es, id, e.finding.severity);
      }
      assert e.change == Resolved ==> ClosesIn(true, es, id);
      assert e.change == Improved || e.change == Persisting ==> QuietIn(true, es, id);
    } else {
      assert id !in SetOf(EntryIds(es));
      forall e | e in es ensures e.finding.id != id { EntryIdIn(es, e); }
      assert QuietIn(true, es, id);
    }
  }

  lemma OnlyEntry(es: seq<Entry>, e: Entry)
    requires NoDuplicates(EntryIds(es)) && e in es
    ensures forall x :: x in es && x.finding.id == e.finding.id ==> x == e
  {
    forall x | x in es && x.finding.id == e.finding.id ensures x == e {
      var i :| 0 <= i < |es| && es[i] == x;
      var j :| 0 <= j < |es| && es[j] == e;
      assert EntryIds(es)[i] == EntryIds(es)[j];
    }
  }

  /** If the receiver mirrors the baseline, it mirrors the current run afterwards. */
  lemma RunKeepsMirror(open: OpenSet, baseline: seq<Finding>, current: seq<Finding>, baselineId: string)
    requires DistinctIds(baseline) && DistinctIds(current) && baselineId != ""
    requires Mirrors(open, baseline)
    ensures Mirrors(Replay(open, Export(baseline, current, baselineId)), current)
  {
    hide Export, Replay, Lookup;
    var after := Replay(open, Export(baseline, current, baselineId));
    forall id ensures id in after <==> id in Ids(current) {
      ReplayRun(open, baseline, current, baselineId, id);
      LookupOut(baseline, id);
      LookupOut(current, id);
    }
    forall f | f in current ensures f.id in after && after[f.id].Rank() >= f.severity.Rank() {
      ReplayRun(open, baseline, current, baselineId, f.id);
      LookupIn(current, f);
      LookupOut(baseline, f.id);
    }
  }

  /** Present in both runs, and more severe in the second. */
  predicate Worsened(baseline: seq<Finding>, current: seq<Finding>, id: string) {
    var was, now := Lookup(baseline, id), Lookup(current, id);
    was.Some? && now.Some? && ChangeFrom(was.value, now.value) == Regressed
  }

  lemma ReplayExactlyOne(open: OpenSet, baseline: seq<Finding>, current: seq<Finding>, baselineId: string, id: string)
    requires DistinctIds(baseline) && DistinctIds(current) && baselineId != ""
    ensures (id in Replay(open, Export(baseline, current, baselineId)) <==> id in Ids(current)) <==>
            && (id in open ==> id in Union(baseline, current))
            && (id in Ids(baseline) && id in Ids(current) && id !in open ==> Worsened(baseline, current, id))
  {
    hide Export, Replay, Lookup;
    ReplayRun(open, baseline, current, baselineId, id);
    LookupOut(baseline, id);
    LookupOut(current, id);
  }

  /** Exactly when a run leaves the receiver with the current identities, for any baseline and any earlier
      state: what it held lies in one of the two runs, and what persisted without getting worse was open. */
  lemma ReplayExactlyWhen(open: OpenSet, baseline: seq<Finding>, current: seq<Finding>, baselineId: string)
    requires DistinctIds(baseline) && DistinctIds(current) && baselineId != ""
    ensures Replay(open, Export(baseline, current, baselineId)).Keys == SetOf(Ids(current)) <==>
            && open.Keys <= Union(baseline, current)
            && forall id :: id in Ids(baseline) && id in Ids(current) && id !in open ==> Worsened(baseline, current, id)
  {
    hide Export, Replay, Lookup, Worsened, Ids, Union;
    var after := Replay(open, Export(baseline, current, baselineId));
    forall id
      ensures (id in after.Keys <==> id in SetOf(Ids(current))) <==>
              && (id in open.Keys ==> id in Union(baseline, current))
              && (id in Ids(baseline) && id in Ids(current) && id !in open ==> Worsened(baseline, current, id)) {
      ReplayExactlyOne(open, baseline, current, baselineId, id);
    }
  }

  /** The receiver is right about one identity of a run: open exactly if it is in the run, not below its severity. */
  ghost predicate RightAbout(open: OpenSet, run: seq<Finding>, id: string) {
    var f := Lookup(run, id);
    (id in open <==> f.Some?) && (f.Some? && id in open ==> open[id].Rank() >= f.value.severity.Rank())
  }

  lemma MirrorsIsRight(open: OpenSet, run: seq<Finding>)
    requires DistinctIds(run)
    ensures Mirrors(open, run) <==> forall id :: RightAbout(open, run, id)
  {
    hide Lookup;
    forall id ensures Lookup(run, id).Some? <==> id in SetOf(Ids(run)) { LookupOut(run, id); }
    if Mirrors(open, run) {
      forall id ensures RightAbout(open, run, id) { LookupOut(run, id); }
    }
    if forall id :: RightAbout(open, run, id) {
      forall f | f in run ensures f.id in open && open[f.id].Rank() >= f.severity.Rank() {
        LookupIn(run, f);
        assert RightAbout(open, run, f.id);
      }
      forall id ensures id in open.Keys <==> id in SetOf(Ids(run)) { assert RightAbout(open, run, id); }
    }
  }

  /** What a receiver must hold of one identity for a run compared with `baseline` to leave it right about `shown`,
      which is the run itself or the baseline. Closed and worsened findings are sent, so nothing is asked of them;
      what persists must be open, and not below the severity shown. */
  ghost predicate Ready(open: OpenSet, baseline: seq<Finding>, current: seq<Finding>, shown: seq<Finding>, id: string) {
    var was, now, f := Lookup(baseline, id), Lookup(current, id), Lookup(shown, id);
    if was.None? && now.None? then id !in open
    else if was.Some? && now.Some? && !Worsened(baseline, current, id)
      then id in open && (f.Some? ==> open[id].Rank() >= f.value.severity.Rank())
    else true
  }

  ghost predicate ReadyFor(open: OpenSet, baseline: seq<Finding>, current: seq<Finding>, shown: seq<Finding>) {
    forall id :: Ready(open, baseline, current, shown, id)
  }

  lemma RightAfterRun(open: OpenSet, baseline: seq<Finding>, current: seq<Finding>, baselineId: string, id: string)
    requires DistinctIds(baseline) && DistinctIds(current) && baselineId != ""
    ensures RightAbout(Replay(open, Export(baseline, current, baselineId)), current, id) <==> Ready(open, baseline, current, current, id)
    ensures RightAbout(Replay(open, Export(baseline, current, baselineId)), baseline, id) <==>
              Ready(open, baseline, current, baseline, id) && (Lookup(baseline, id).Some? <==> Lookup(current, id).Some?)
  {
    hide Export, Replay, Lookup;
    ReplayRun(open, baseline, current, baselineId, id);
  }

  /** Exactly when a run leaves the receiver a mirror of it, severities included, whatever it held before. */
  lemma MirrorsExactlyWhen(open: OpenSet, baseline: seq<Finding>, current: seq<Finding>, baselineId: string)
    requires DistinctIds(baseline) && DistinctIds(current) && baselineId != ""
    ensures Mirrors(Replay(open, Export(baseline, current, baselineId)), current)
            <==> ReadyFor(open, baseline, current, current)
  {
    hide Mirrors, RightAbout, Ready, Export, Replay;
    MirrorsIsRight(Replay(open, Export(baseline, current, baselineId)), current);
    forall id ensures RightAbout(Replay(open, Export(baseline, current, baselineId)), current, id) <==> Ready(open, baseline, current, current, id) {
      RightAfterRun(open, baseline, current, baselineId, id);
    }
  }

  /** Exactly when it leaves the receiver a mirror of the run it was compared with: the two found the same
      identities, and the receiver held what it had to. */
  lemma MirrorsBaselineExactlyWhen(open: OpenSet, baseline: seq<Finding>, current: seq<Finding>, baselineId: string)
    requires DistinctIds(baseline) && DistinctIds(current) && baselineId != ""
    ensures Mirrors(Replay(open, Export(baseline, current, baselineId)), baseline)
            <==> SetOf(Ids(baseline)) == SetOf(Ids(current)) && ReadyFor(open, baseline, current, baseline)
  {
    hide Mirrors, RightAbout, Ready, Export, Replay, Lookup;
    var after := Replay(open, Export(baseline, current, baselineId));
    MirrorsIsRight(after, baseline);
    forall id ensures RightAbout(after, baseline, id) <==>
                        Ready(open, baseline, current, baseline, id) && (id in SetOf(Ids(baseline)) <==> id in SetOf(Ids(current))) {
      RightAfterRun(open, baseline, current, baselineId, id);
      LookupOut(baseline, id);
      LookupOut(current, id);
    }
    if SetOf(Ids(baseline)) == SetOf(Ids(current)) && ReadyFor(open, baseline, current, baseline) {
      forall id ensures RightAbout(after, baseline, id) {}
    }
    if forall id :: RightAbout(after, baseline, id) {
      forall id ensures Ready(open, baseline, current, baseline, id) && (id in SetOf(Ids(baseline)) <==> id in SetOf(Ids(current))) {
        assert RightAbout(after, baseline, id);
      }
    }
  }

  /** The run after a late finish: the receiver mirrors `older`, but the comparison sent is with `latest`. It is a
      mirror again exactly when `older` found nothing that both later runs lack, and everything that stayed as bad as
      it was had been found by `older` at that severity. What is not healed stays: gone findings remain open, and
      standing ones remain closed. */
  lemma NextRunAfterALateFinish(open: OpenSet, older: seq<Finding>, latest: seq<Finding>, next: seq<Finding>, latestId: string)
    requires DistinctIds(older) && DistinctIds(latest) && DistinctIds(next) && latestId != "" && Mirrors(open, older)
    ensures var after := Replay(open, Export(latest, next, latestId));
            && (Mirrors(after, next) <==>
                 && (forall id :: id in Ids(older) ==> id in Ids(latest) || id in Ids(next))
                 && forall f :: f in next && f.id in Ids(latest) && !Worsened(latest, next, f.id) ==>
                      f.id in Ids(older) && open[f.id].Rank() >= f.severity.Rank())
            && (forall id :: id in Ids(older) && id !in Ids(latest) && id !in Ids(next) ==> id in after)
            && (forall id :: id !in Ids(older) && id in Ids(latest) && id in Ids(next) && !Worsened(latest, next, id) ==> id !in after)
  {
    hide Export, Replay, Lookup, Worsened, Mirrors, Ready;
    MirrorsExactlyWhen(open, latest, next, latestId);
    MirrorKeys(open, older);
    ReadyEverywhere(open, older, latest, next);
    forall id ensures var after := Replay(open, Export(latest, next, latestId));
                      && (id in Ids(older) && id !in Ids(latest) && id !in Ids(next) ==> id in after)
                      && (id !in Ids(older) && id in Ids(latest) && id in Ids(next) && !Worsened(latest, next, id) ==> id !in after) {
      InheritsOne(open, latest, next, latestId, id);
    }
  }

  lemma MirrorKeys(open: OpenSet, run: seq<Finding>)
    requires Mirrors(open, run)
    ensures forall id :: id in open <==> id in Ids(run)
  {
    assert forall id :: id in open.Keys <==> id in SetOf(Ids(run));
  }

  lemma InheritsOne(open: OpenSet, latest: seq<Finding>, next: seq<Finding>, latestId: string, id: string)
    requires DistinctIds(latest) && DistinctIds(next) && latestId != ""
    ensures var after := Replay(open, Export(latest, next, latestId));
            && (id in open && id !in Ids(latest) && id !in Ids(next) ==> id in after)
            && (id !in open && id in Ids(latest) && id in Ids(next) && !Worsened(latest, next, id) ==> id !in after)
  {
    hide Export, Replay, Lookup;
    ReplayRun(open, latest, next, latestId, id);
    LookupOut(latest, id);
    LookupOut(next, id);
  }

  lemma ReadyEverywhere(open: OpenSet, older: seq<Finding>, latest: seq<Finding>, next: seq<Finding>)
    requires DistinctIds(latest) && DistinctIds(next) && forall id :: id in open <==> id in Ids(older)
    ensures ReadyFor(open, latest, next, next) <==>
              && (forall id :: id in Ids(older) ==> id in Ids(latest) || id in Ids(next))
              && forall f :: f in next && f.id in Ids(latest) && !Worsened(latest, next, f.id) ==>
                   f.id in Ids(older) && open[f.id].Rank() >= f.severity.Rank()
  {
    hide Lookup, Worsened;
    forall id ensures (Lookup(latest, id).Some? <==> id in Ids(latest)) && (Lookup(next, id).Some? <==> id in Ids(next)) {
      LookupOut(latest, id);
      LookupOut(next, id);
    }
    if ReadyFor(open, latest, next, next) {
      forall id | id in Ids(older) ensures id in Ids(latest) || id in Ids(next) { assert Ready(open, latest, next, next, id); }
      forall f | f in next && f.id in Ids(latest) && !Worsened(latest, next, f.id)
        ensures f.id in Ids(older) && open[f.id].Rank() >= f.severity.Rank() {
        LookupIn(next, f);
        assert Ready(open, latest, next, next, f.id);
      }
    } else {
      var id :| !Ready(open, latest, next, next, id);
      LookupOut(next, id);
    }
  }
}
