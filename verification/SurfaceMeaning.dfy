/** internal/surface/surface.go: how hosts are read, which declared target a finding falls under, and what the counters of
    the graph count. */
module SurfaceMeaning {
  import opened Text
  import opened Ordering
  import opened Findings
  import opened Records
  import opened SurfaceTree
  import opened SurfaceBuild

  // ----- reading hosts -----

  /** Scheme, user, path, query and fragment of a URL do not matter to the key of its host. */
  lemma UrlKey(scheme: string, user: string, core: string, rest: string)
    requires ':' !in scheme && Tail(rest) && Tidy(scheme + "://" + user + core + rest)
    requires user == "" || (user[|user| - 1] == '@' && '@' !in user[..|user| - 1])
    requires forall c :: c in user ==> c != '/' && c != '?' && c != '#'
    requires forall c :: c in core ==> c != '/' && c != '?' && c != '#' && c != '@'
    ensures HostOf(scheme + "://" + user + core + rest) == PortlessHost(core)
  {
    hide Clean, PortlessHost, IsSpace, Tidy, IndexOfPart, IndexOfAny;
    var t := scheme + "://" + user + core + rest;
    TidyIsClean(t);
    FirstScheme(scheme, user + core + rest);
    assert t == scheme + "://" + (user + core + rest);
    FirstAmong(user + core, rest, "/?#");
    assert (user + core + rest)[..|user + core|] == user + core;
    UserIsCut(user, core);
  }

  lemma UserIsCut(user: string, core: string)
    requires (user == "" || (user[|user| - 1] == '@' && '@' !in user[..|user| - 1])) && '@' !in core
    ensures var j := IndexOfAny(user + core, "@");
            (if j < |user + core| then (user + core)[j + 1..] else user + core) == core
  {
    if user == "" {
      FirstAmong(core, "", "@");
      assert core + "" == core && user + core == core;
    } else {
      var name := user[..|user| - 1];
      FirstAmong(name, "@" + core, "@");
      assert user + core == name + ("@" + core);
    }
  }

  /** Neither does a port or one trailing dot; an address in brackets keeps its brackets. */
  lemma PortKey(host: string, port: string)
    requires host != "" && ':' !in host && ':' !in port && host[0] != '[' && host[|host| - 1] != '.'
    ensures PortlessHost(host) == host && PortlessHost(host + ".") == host
    ensures PortlessHost(host + ":" + port) == host && PortlessHost(host + ".:" + port) == host
    ensures ']' !in host ==> PortlessHost("[" + host + "]" + port) == "[" + host + "]"
  {
    NoTrailingDot(host);
    FirstAmong(host, "", ":");
    FirstAmong(host + ".", "", ":");
    assert host + "" == host && host + "." + "" == host + ".";
    FirstAmong(host, ":" + port, ":");
    FirstAmong(host + ".", ":" + port, ":");
    CutAtColon(host, port);
    CutAtColon(host + ".", port);
    assert host + "." + ":" + port == host + ".:" + port;
    if ']' !in host {
      BracketKey(host, port);
    }
  }

  lemma BracketKey(addr: string, after: string)
    requires ']' !in addr
    ensures PortlessHost("[" + addr + "]" + after) == "[" + addr + "]"
  {
    var s := "[" + addr + "]" + after;
    FirstAmong("[" + addr, "]" + after, "]");
    assert s == "[" + addr + ("]" + after);
    assert s[..|addr| + 2] == "[" + addr + "]";
  }

  // ----- the declared targets -----

  /** The operator's targets by name, or, when none was recorded, the authorised ones. */
  lemma DeclaredMean(j: Job)
    ensures var ds := DeclaredTargets(Some(j));
            && (forall a, b :: 0 <= a < b < |ds| ==> StrLeq(ds[a].target, ds[b].target))
            && (if j.targets != [] then multiset(ds) == multiset(j.targets)
                else forall d :: d in ds <==> d.target in j.authz.targets && d == TargetOutcome(d.target, false, "", false, false, 0))
    ensures DeclaredTargets(None) == []
  {
    hide SortBy, StrLeq;
    StrOrder();
    assert TotalPreorder(OutcomeLeq);
    var bare := MapSeq((t: string) => TargetOutcome(t, false, "", false, false, 0), j.authz.targets);
    SortBySorted(OutcomeLeq, j.targets);
    SortBySorted(OutcomeLeq, bare);
    var ds := DeclaredTargets(Some(j));
    assert Sorted(OutcomeLeq, ds);
    SameElements(SortBy(OutcomeLeq, bare), bare);
    forall t | t in j.authz.targets ensures TargetOutcome(t, false, "", false, false, 0) in bare {
      var i :| 0 <= i < |j.authz.targets| && j.authz.targets[i] == t;
      assert bare[i] == TargetOutcome(t, false, "", false, false, 0);
    }
  }

  /** The root is that of the first declared target with its key, as that target was written and fared. */
  ghost predicate RootOf(r: RootInfo, ds: seq<TargetOutcome>) {
    exists i :: 0 <= i < |ds| && r == RootInfo(HostOf(ds[i].target), ds[i].target, !ds[i].processed, ds[i].reason)
                && r.key != "" && forall k :: 0 <= k < i ==> HostOf(ds[k].target) != r.key
  }

  lemma RootOfMore(r: RootInfo, ds: seq<TargetOutcome>, d: TargetOutcome)
    requires RootOf(r, ds)
    ensures RootOf(r, ds + [d])
  {
    hide HostOf;
    var i :| 0 <= i < |ds| && r == RootInfo(HostOf(ds[i].target), ds[i].target, !ds[i].processed, ds[i].reason)
             && r.key != "" && forall k :: 0 <= k < i ==> HostOf(ds[k].target) != r.key;
    assert (ds + [d])[i] == ds[i];
  }

  lemma KeyListed(plan: seq<RootInfo>, key: string)
    ensures key in Keys(plan) <==> exists r :: r in plan && r.key == key
  {
    if r :| r in plan && r.key == key {
      var i :| 0 <= i < |plan| && plan[i] == r;
      assert Keys(plan)[i] == key;
    }
    if key in Keys(plan) {
      var i :| 0 <= i < |plan| && Keys(plan)[i] == key;
      assert plan[i] in plan;
    }
  }

  /** One root for each key a declared target has, and none for a target without one. */
  lemma {:induction false} PlanMeans(ds: seq<TargetOutcome>)
    ensures var plan := PlanOf(ds);
            && NoDuplicates(Keys(plan)) && (forall r :: r in plan ==> RootOf(r, ds))
            && forall d :: d in ds && HostOf(d.target) != "" ==> HostOf(d.target) in Keys(plan)
  {
    hide HostOf, NoDuplicates, Keys, RootOf;
    if ds != [] {
      var n := |ds| - 1;
      var init, d := ds[..n], ds[n];
      SplitLast(ds);
      PlanMeans(init);
      var plan := PlanOf(init);
      forall r | r in plan ensures RootOf(r, ds) {
        RootOfMore(r, init, d);
      }
      if HostOf(d.target) != "" && HostOf(d.target) !in Keys(plan) {
        NewRoot(ds);
        KeysGrow(plan, RootInfo(HostOf(d.target), d.target, !d.processed, d.reason));
      }
    }
  }

  lemma KeysGrow(plan: seq<RootInfo>, r: RootInfo)
    ensures Keys(plan + [r]) == Keys(plan) + [r.key]
  {
    MapSnoc(KeyOf, plan, r);
  }

  lemma NewRoot(ds: seq<TargetOutcome>)
    requires ds != []
    requires var n := |ds| - 1;
             && HostOf(ds[n].target) != "" && HostOf(ds[n].target) !in Keys(PlanOf(ds[..n]))
             && forall d :: d in ds[..n] && HostOf(d.target) != "" ==> HostOf(d.target) in Keys(PlanOf(ds[..n]))
    ensures var d := ds[|ds| - 1]; RootOf(RootInfo(HostOf(d.target), d.target, !d.processed, d.reason), ds)
  {
    hide HostOf, Keys, PlanOf;
    var n := |ds| - 1;
    forall k | 0 <= k < n ensures HostOf(ds[k].target) != HostOf(ds[n].target) {
      assert ds[..n][k] in ds[..n];
    }
  }

  // ----- where a finding falls -----

  predicate FallsUnder(host: string, key: string) { EndsWith(Labels(host), Labels(key)) }

  /** A finding is recorded below the declared target whose labels end those of its host, the longest one; below the root
      of none when there is no such target. Its host stands there unless it is the target itself, and its port below
      the host when it has one. */
  lemma PathMeans(plan: seq<RootInfo>, host: string, port: int)
    requires NoDuplicates(Keys(plan))
    ensures var p := PathFor(plan, host, port);
            && p != [] && p[0].AtRoot?
            && var i := p[0].index;
               var key := if i < |plan| then plan[i].key else "__unplaced";
               && i <= |plan|
               && p == [AtRoot(i)] + (if host != key then [AtHost(host)] else []) + (if port > 0 then [AtPort(port)] else [])
               && (i < |plan| ==> FallsUnder(host, key))
               && forall j :: 0 <= j < |plan| && j != i && FallsUnder(host, plan[j].key) ==> i < |plan| && |plan[j].key| < |key|
  {
    hide RootIndex, EndsWith, Labels, Under;
    RootIsLongestSuffix(plan, host);
    forall j | 0 <= j < |plan| ensures Under(host, plan[j].key) <==> FallsUnder(host, plan[j].key) {
      UnderMeansLabels(host, plan[j].key);
    }
  }

  // ----- the other counters -----

  /** The finding has a host, and that host lies under no declared target. */
  function Stray(plan: seq<RootInfo>): Option<Finding> -> bool {
    (f: Option<Finding>) => Placeable(f) && forall r :: r in plan ==> !FallsUnder(HostOf(f.value.target), r.key)
  }

  lemma StrayMeans(plan: seq<RootInfo>, f: Option<Finding>)
    requires NoDuplicates(Keys(plan)) && Placeable(f)
    ensures Within([AtRoot(|plan|)])(Place(plan)(f)) <==> Stray(plan)(f)
  {
    hide HostOf, PathFor, FallsUnder, Keys;
    var host := HostOf(f.value.target);
    PathMeans(plan, host, f.value.port);
    var p := PathFor(plan, host, f.value.port);
    assert [AtRoot(|plan|)] <= p <==> p[0].index == |plan|;
    if p[0].index < |plan| {
      assert plan[p[0].index] in plan;
    } else {
      forall r | r in plan ensures !FallsUnder(host, r.key) {
        var j :| 0 <= j < |plan| && plan[j] == r;
      }
    }
  }

  lemma {:induction false} StraysCounted(plan: seq<RootInfo>, fs: seq<Option<Finding>>)
    requires NoDuplicates(Keys(plan))
    ensures |AnyUnplaced(plan, Spots(plan, fs))| == |Filter(Stray(plan), fs)|
  {
    hide Place, Stray, NoDuplicates, Keys;
    if fs != [] {
      var n := |fs| - 1;
      var init, f := fs[..n], fs[n];
      SplitLast(fs);
      StraysCounted(plan, init);
      FilterStep(Stray(plan), init, f);
      FilterStep(Placeable, init, f);
      if Placeable(f) {
        MapSnoc(Place(plan), Filter(Placeable, init), f);
        FilterStep(Within([AtRoot(|plan|)]), Spots(plan, init), Place(plan)(f));
        StrayMeans(plan, f);
      } else {
        NotStray(plan, f);
      }
      hide Filter, MapSeq;
    }
  }

  lemma NotStray(plan: seq<RootInfo>, f: Option<Finding>)
    requires !Placeable(f)
    ensures !Stray(plan)(f)
  {
  }

  /** The graph counts the declared targets that were not processed, and the findings that lie under none of them. */
  lemma CountersMean(job: Option<Job>, fs: seq<Option<Finding>>)
    ensures var g := Build(job, fs);
            var plan := PlanOf(DeclaredTargets(job));
            && g.jobId == (if job.Some? then job.value.id else "")
            && g.skippedTargets == |Filter((r: RootInfo) => r.skipped, plan)|
            && g.unplaced == |Filter(Stray(plan), fs)|
  {
    hide DeclaredTargets, PlanOf, Spots, SortedRoots, HostPaths, ServicePaths, AnyUnplaced, Stray, NoDuplicates;
    var plan := PlanOf(DeclaredTargets(job));
    StraysCounted(plan, fs);
    SameSkipped(plan);
  }

  lemma {:induction false} SameSkipped(plan: seq<RootInfo>)
    ensures Filter(IsSkipped, plan) == Filter((r: RootInfo) => r.skipped, plan)
  {
    if plan != [] {
      SameSkipped(plan[..|plan| - 1]);
    }
  }
}
