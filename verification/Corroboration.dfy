/** internal/finding/finding.go: what corroboration makes of a group of findings with the same identity, and when it
    depends on the order in which they were reported. */
module Corroboration {
  import opened Text
  import opened Ordering
  import opened Findings
  import opened Correlate

  // ----- one finding per tool -----

  function FirstTool(f: Finding): string
  {
    if f.tools == [] then "" else f.tools[0]
  }

  /** Every member comes from a single tool and no tool appears twice. */
  predicate OneToolEach(g: seq<Finding>) {
    && (forall f :: f in g ==> |f.tools| == 1 && f.confidence.Rank() > 0)
    && NoDuplicates(MapSeq(FirstTool, g))
  }

  function CorroboratedRank(size: nat, best: int): int {
    if size == 1 then best else if size == 2 then Min(3, best + 1) else 3
  }

  lemma LastToolIsNew(g: seq<Finding>)
    requires |g| > 1 && OneToolEach(g)
    ensures !(SetOf(g[|g| - 1].tools) <= ToolSet(g[..|g| - 1]))
  {
    var n := |g| - 1;
    var h := g[..n];
    assert g[n] in g;
    var t := g[n].tools[0];
    assert t in SetOf(g[n].tools);
    SetsOfMembers(h);
    forall f | f in h ensures t !in f.tools {
      var k :| 0 <= k < n && h[k] == f;
      assert MapSeq(FirstTool, g)[k] != MapSeq(FirstTool, g)[n];
    }
  }

  lemma {:induction false} FoldOfDistinctTools(g: seq<Finding>)
    requires g != [] && OneToolEach(g)
    ensures ConfidenceFold(g).Rank() == CorroboratedRank(|g|, MaxConfidence(g))
    ensures 1 <= MaxConfidence(g)
  {
    hide HigherConfidence;
    hide Confidence.Rank, Confidence.Promote;
    var n := |g| - 1;
    SplitLast(g);
    if n == 0 {
      assert MaxConfidence(g[..0]) == 0;
      MergedRank(g[0].confidence, g[0].confidence);
    } else {
      var h := g[..n];
      MergedRank(ConfidenceFold(h), g[n].confidence);
      assert MapSeq(FirstTool, h) == MapSeq(FirstTool, g)[..n];
      FoldOfDistinctTools(h);
      LastToolIsNew(g);
      FoldUnfolds(g);
      hide ConfidenceFold, ToolSet, MaxConfidence, SetOf;
    }
  }

  /** One tool leaves the statement as it is, two agreeing tools raise the better one by a step, three or
      more confirm it. */
  lemma GroupOfDistinctTools(g: seq<Finding>)
    requires g != [] && OneToolEach(g)
    ensures FoldGroup(g).confidence.Rank() == CorroboratedRank(|g|, MaxConfidence(g))
    ensures 1 <= MaxConfidence(g)
  {
    ConfidenceOfGroup(g);
    FoldOfDistinctTools(g);
  }

  lemma MaxConfidenceIsMax(g: seq<Finding>)
    requires g != []
    ensures forall f :: f in g ==> f.confidence.Rank() <= MaxConfidence(g)
    ensures exists f :: f in g && f.confidence.Rank() == MaxConfidence(g)
  {
    var n := |g| - 1;
    assert g == g[..n] + [g[n]];
    assert g[n] in g;
    if n == 0 {
      assert MaxConfidence(g[..0]) == 0;
    } else {
      MaxConfidenceIsMax(g[..n]);
      var f :| f in g[..n] && f.confidence.Rank() == MaxConfidence(g[..n]);
      assert f in g;
    }
  }

  // ----- what the order decides -----

  predicate Known(g: seq<Finding>) {
    forall f :: f in g ==> f.confidence.Rank() > 0
  }

  function Tools(f: Finding): set<string> { SetOf(f.tools) }

  /** How many of the merges brought a new tool. */
  function News(g: seq<Finding>): nat {
    if |g| <= 1 then 0
    else News(g[..|g| - 1]) + if Tools(g[|g| - 1]) <= ToolSet(g[..|g| - 1]) then 0 else 1
  }

  /** How many of them before anything was said to be likely. */
  function EarlyNews(g: seq<Finding>): nat {
    if g == [] then 0 else if MaxConfidence(g) <= 1 then News(g) else EarlyNews(g[..|g| - 1])
  }

  /** The rank that the best statement and these two counts decide. */
  function StatedRank(best: int, news: nat, early: nat): int {
    if best == 3 then 3 else if best == 2 && early == 0 then Min(3, 2 + news) else Min(3, 1 + news)
  }

  lemma NewsUnfolds(g: seq<Finding>)
    requires |g| > 1
    ensures var h, f := g[..|g| - 1], g[|g| - 1];
            && News(g) == News(h) + (if Tools(f) <= ToolSet(h) then 0 else 1)
            && EarlyNews(g) == (if MaxConfidence(g) <= 1 then News(g) else EarlyNews(h))
            && (MaxConfidence(h) <= 1 ==> EarlyNews(h) == News(h))
            && ToolSet(g) == ToolSet(h) + Tools(f)
  {
    hide MaxConfidence, SetOf;
    FoldUnfolds(g);
  }

  lemma NewsOfOne(f: Finding)
    ensures ToolSet([f]) == Tools(f) && MaxConfidence([f]) == f.confidence.Rank() == ConfidenceFold([f]).Rank() <= 3
    ensures News([f]) == EarlyNews([f]) == 0
  {
    assert [f][..0] == [];
    MergedRank(f.confidence, f.confidence);
  }

  lemma {:induction false} EarlyFewer(g: seq<Finding>)
    ensures EarlyNews(g) <= News(g)
  {
    hide MaxConfidence, ToolSet, SetOf;
    if g != [] {
      EarlyFewer(g[..|g| - 1]);
    }
  }

  lemma {:induction false} FoldOfStatements(g: seq<Finding>)
    requires g != [] && Known(g)
    ensures ConfidenceFold(g).Rank() == StatedRank(MaxConfidence(g), News(g), EarlyNews(g))
    ensures 1 <= MaxConfidence(g) <= 3
  {
    hide MaxConfidence, ToolSet, ConfidenceFold, News, EarlyNews, Confidence.Rank, SetOf, HigherConfidence;
    if |g| == 1 {
      assert g == [g[0]] && g[0] in g;
      NewsOfOne(g[0]);
    } else {
      var h, f := g[..|g| - 1], g[|g| - 1];
      SplitLast(g);
      assert f in g && Known(h);
      FoldOfStatements(h);
      FoldUnfolds(g);
      NewsUnfolds(g);
      EarlyFewer(h);
      MergedRank(ConfidenceFold(h), f.confidence);
      MergedRank(f.confidence, f.confidence);
    }
  }

  predicate Reordered(g: seq<Finding>, h: seq<Finding>) { h != [] && multiset(g) == multiset(h) }

  lemma MaxPermutes(g: seq<Finding>, h: seq<Finding>)
    requires g != [] && Reordered(g, h)
    ensures MaxConfidence(g) == MaxConfidence(h) && ToolSet(g) == ToolSet(h)
    ensures Known(g) ==> Known(h)
    ensures forall f :: f in h <==> f in g
  {
    SameElements(g, h);
    SameSets(g, h);
    MaxConfidenceIsMax(g);
    MaxConfidenceIsMax(h);
    hide MaxConfidence, ToolSet;
  }

  /** Two orders differ only in these counts. */
  lemma TwoOrders(g: seq<Finding>, h: seq<Finding>)
    requires g != [] && Reordered(g, h) && Known(g)
    ensures 1 <= MaxConfidence(g) <= 3
    ensures FoldGroup(g).confidence.Rank() == StatedRank(MaxConfidence(g), News(g), EarlyNews(g)) > 0
    ensures FoldGroup(h).confidence.Rank() == StatedRank(MaxConfidence(g), News(h), EarlyNews(h)) > 0
    ensures FoldGroup(g).confidence == FoldGroup(h).confidence <==> FoldGroup(g).confidence.Rank() == FoldGroup(h).confidence.Rank()
  {
    hide FoldGroup, ConfidenceFold, MaxConfidence, ToolSet, News, EarlyNews;
    MaxPermutes(g, h);
    ConfidenceOfGroup(g);
    ConfidenceOfGroup(h);
    FoldOfStatements(g);
    FoldOfStatements(h);
  }

  // ----- how a group may begin -----

  /** How a beginning bounds the counts. */
  lemma {:induction false} Begins(g: seq<Finding>, k: nat)
    requires 0 < k <= |g|
    ensures MaxConfidence(g[..k]) <= MaxConfidence(g) && ToolSet(g[..k]) <= ToolSet(g)
    ensures if ToolSet(g[..k]) == ToolSet(g) then News(g) == News(g[..k]) else News(g) > News(g[..k])
    ensures MaxConfidence(g[..k]) > 1 ==> EarlyNews(g) == EarlyNews(g[..k])
    ensures MaxConfidence(g[..k]) <= 1 ==> EarlyNews(g) >= News(g[..k])
  {
    hide ToolSet, MaxConfidence, News, EarlyNews, SetOf;
    if k == |g| {
      assert g[..k] == g;
      EarlyUnfolds(g);
    } else {
      var h := g[..|g| - 1];
      assert h[..k] == g[..k];
      Begins(h, k);
      FoldUnfolds(g);
      NewsUnfolds(g);
    }
  }

  lemma EarlyUnfolds(g: seq<Finding>)
    requires g != []
    ensures MaxConfidence(g) <= 1 ==> EarlyNews(g) == News(g)
  {
    hide MaxConfidence, News;
  }

  lemma TwoStatements(f: Finding, o: Finding)
    ensures ToolSet([f, o]) == Tools(f) + Tools(o) && MaxConfidence([f, o]) == Max(f.confidence.Rank(), o.confidence.Rank())
    ensures News([f, o]) == if Tools(o) <= Tools(f) then 0 else 1
    ensures EarlyNews([f, o]) == if MaxConfidence([f, o]) <= 1 then News([f, o]) else 0
  {
    assert [f, o][..1] == [f];
    NewsOfOne(f);
    NewsUnfolds([f, o]);
    FoldUnfolds([f, o]);
    hide MaxConfidence, ToolSet, News, EarlyNews;
  }

  lemma ToFront(s: seq<Finding>, i: nat)
    requires i < |s|
    ensures multiset([s[i]] + (s[..i] + s[i + 1..])) == multiset(s)
  {
    RemoveAt(s, i);
  }

  /** An order that begins with `f`. */
  lemma StartWith(g: seq<Finding>, f: Finding) returns (h: seq<Finding>)
    requires f in g
    ensures Reordered(g, h) && h[..1] == [f]
  {
    var i :| 0 <= i < |g| && g[i] == f;
    h := [g[i]] + (g[..i] + g[i + 1..]);
    ToFront(g, i);
  }

  /** An order that begins with `f`, then `o`. */
  lemma StartWithBoth(g: seq<Finding>, f: Finding, o: Finding) returns (h: seq<Finding>)
    requires f in g && o in g && f != o
    ensures Reordered(g, h) && |h| >= 2 && h[..2] == [f, o]
  {
    var k := StartWith(g, o);
    SameElements(g, k);
    var i :| 0 <= i < |k| && k[i] == f;
    h := [k[i]] + (k[..i] + k[i + 1..]);
    ToFront(k, i);
  }

  // ----- when it decides -----

  /** One finding alone has all the tools. */
  predicate OneHasAll(g: seq<Finding>) { exists f :: f in g && Tools(f) == ToolSet(g) }

  predicate AllHaveAll(g: seq<Finding>) { forall f :: f in g ==> Tools(f) == ToolSet(g) }

  /** Two findings that say potential have all the tools between them. */
  predicate PairHasAll(g: seq<Finding>) {
    exists f, o :: f in g && o in g && f.confidence == o.confidence == Potential && Tools(f) + Tools(o) == ToolSet(g)
  }

  /** Some two findings add up to more than the first, yet not to all the tools. */
  predicate PairGrows(g: seq<Finding>) {
    exists f, o :: f in g && o in g && !(Tools(o) <= Tools(f)) && Tools(f) + Tools(o) != ToolSet(g)
  }

  /** Nothing is confirmed; and if one finding has all the tools, not every finding has, else two potential ones
      have, with a likely one beside them or another pair that leaves room for a third step. */
  predicate OrderDecides(g: seq<Finding>) {
    && MaxConfidence(g) < 3
    && if OneHasAll(g) then !AllHaveAll(g) else PairHasAll(g) && (MaxConfidence(g) == 2 || PairGrows(g))
  }

  lemma HeadHasAll(g: seq<Finding>)
    requires g != []
    ensures News(g) == 0 <==> Tools(g[0]) == ToolSet(g)
    ensures g[0] in g && g[..1] == [g[0]]
  {
    hide ToolSet, MaxConfidence, EarlyNews, SetOf;
    assert g[..1] == [g[0]];
    NewsOfOne(g[0]);
    Begins(g, 1);
  }

  /** The member that brought the first new tool. */
  lemma {:induction false} FirstNews(g: seq<Finding>) returns (o: Finding)
    requires g != [] && News(g) > 0
    ensures o in g && !(Tools(o) <= Tools(g[0]))
    ensures News(g) == 1 <==> Tools(g[0]) + Tools(o) == ToolSet(g)
    ensures EarlyNews(g) > 0 && Known(g) ==> g[0].confidence == o.confidence == Potential
  {
    hide ToolSet, MaxConfidence, SetOf, Tools, Confidence.Rank, Known;
    var h := g[..|g| - 1];
    SplitLast(g);
    NewsUnfolds(g);
    FoldUnfolds(g);
    EarlyFewer(h);
    Begins(g, |g| - 1);
    HeadHasAll(h);
    if News(h) > 0 {
      o := FirstNews(h);
      KnownBefore(g);
      MemberTools(h, o);
      MemberTools(h, h[0]);
      if EarlyNews(g) > 0 && EarlyNews(h) == 0 { LateStart(g); }
    } else {
      o := g[|g| - 1];
      if EarlyNews(g) > 0 && Known(g) { AllPotential(g); }
    }
  }

  lemma KnownBefore(g: seq<Finding>)
    requires g != []
    ensures Known(g) ==> Known(g[..|g| - 1])
  {
  }

  lemma LateStart(g: seq<Finding>)
    requires |g| > 1 && EarlyNews(g) > 0 && EarlyNews(g[..|g| - 1]) == 0
    ensures News(g[..|g| - 1]) == 0
  {
    hide ToolSet, SetOf;
    NewsUnfolds(g);
    FoldUnfolds(g);
  }

  lemma AllPotential(g: seq<Finding>)
    requires |g| > 1 && Known(g) && EarlyNews(g) > 0 && News(g[..|g| - 1]) == 0
    ensures g[0].confidence == g[|g| - 1].confidence == Potential
  {
    hide ToolSet, SetOf, MaxConfidence, News;
    NewsUnfolds(g);
    EarlyFewer(g[..|g| - 1]);
    MaxConfidenceIsMax(g);
    assert g[0] in g && g[|g| - 1] in g;
  }

  /** Different outcomes show the condition: `g` is the order that ends lower. */
  lemma DifferenceShows(g: seq<Finding>, h: seq<Finding>)
    requires g != [] && Reordered(g, h) && Known(g)
    requires FoldGroup(g).confidence.Rank() < FoldGroup(h).confidence.Rank()
    ensures OrderDecides(g)
  {
    hide FoldGroup, MaxConfidence, ToolSet, News, EarlyNews, SetOf, Tools, Confidence.Rank, Known;
    TwoOrders(g, h);
    MaxPermutes(g, h);
    HeadHasAll(g);
    HeadHasAll(h);
    EarlyFewer(g);
    if News(g) > 0 {
      var o := FirstNews(g);
      EarlyUnfolds(g);
      assert PairHasAll(g);
    }
    if News(h) > 1 {
      var o := FirstNews(h);
      assert PairGrows(g);
    }
  }

  /** An order that ends low. */
  lemma EndsLow(g: seq<Finding>) returns (h: seq<Finding>)
    requires g != [] && Known(g) && OrderDecides(g)
    ensures Reordered(g, h) && if OneHasAll(g) then News(h) == 0 else News(h) == EarlyNews(h) == 1
  {
    hide FoldGroup, MaxConfidence, ToolSet, News, EarlyNews, SetOf, Tools;
    if OneHasAll(g) {
      var f :| f in g && Tools(f) == ToolSet(g);
      h := StartWith(g, f);
      MaxPermutes(g, h);
      HeadHasAll(h);
      assert h[0] == h[..1][0];
    } else {
      var f, o :| f in g && o in g && f.confidence == o.confidence == Potential && Tools(f) + Tools(o) == ToolSet(g);
      UnionOfOne(f);
      h := StartWithBoth(g, f, o);
      MaxPermutes(g, h);
      TwoStatements(f, o);
      UnionWith(f, o);
      Begins(h, 2);
      EarlyFewer(h);
    }
  }

  lemma UnionOfOne(f: Finding)
    ensures Tools(f) + Tools(f) == Tools(f)
  {
  }

  lemma UnionWith(f: Finding, o: Finding)
    ensures Tools(o) <= Tools(f) ==> Tools(f) + Tools(o) == Tools(f)
  {
  }

  /** An order that ends high, when something was said to be likely. */
  lemma LikelyEndsHigh(g: seq<Finding>) returns (h: seq<Finding>)
    requires g != [] && Known(g) && MaxConfidence(g) == 2 && !AllHaveAll(g)
    ensures Reordered(g, h) && News(h) > 0 && EarlyNews(h) == 0
  {
    hide FoldGroup, MaxConfidence, ToolSet, News, EarlyNews, SetOf, Tools;
    MaxConfidenceIsMax(g);
    var l :| l in g && l.confidence.Rank() == MaxConfidence(g);
    var f :| f in g && Tools(f) != ToolSet(g);
    NewsOfOne(l);
    if Tools(l) != ToolSet(g) {
      h := StartWith(g, l);
      MaxPermutes(g, h);
      HeadHasAll(h);
      assert h[0] == h[..1][0];
      Begins(h, 1);
    } else {
      h := StartWithBoth(g, f, l);
      MaxPermutes(g, h);
      TwoStatements(f, l);
      SetsOfMembers(g);
      Begins(h, 2);
      MemberTools(g, f);
    }
  }

  lemma MemberTools(g: seq<Finding>, f: Finding)
    requires f in g
    ensures Tools(f) <= ToolSet(g)
  {
    SetsOfMembers(g);
  }

  /** An order that ends high, when all is potential. */
  lemma PotentialEndsHigh(g: seq<Finding>) returns (h: seq<Finding>)
    requires g != [] && Known(g) && OrderDecides(g) && MaxConfidence(g) == 1
    ensures Reordered(g, h) && if OneHasAll(g) then News(h) > 0 else News(h) > 1
  {
    hide FoldGroup, MaxConfidence, ToolSet, News, EarlyNews, SetOf, Tools;
    if OneHasAll(g) {
      var f :| f in g && Tools(f) != ToolSet(g);
      h := StartWith(g, f);
      MaxPermutes(g, h);
      HeadHasAll(h);
      assert h[0] == h[..1][0];
    } else {
      var f, o :| f in g && o in g && !(Tools(o) <= Tools(f)) && Tools(f) + Tools(o) != ToolSet(g);
      h := StartWithBoth(g, f, o);
      MaxPermutes(g, h);
      TwoStatements(f, o);
      Begins(h, 2);
    }
  }

  lemma NotOneNotAll(g: seq<Finding>)
    requires g != [] && OrderDecides(g)
    ensures !AllHaveAll(g)
  {
    hide MaxConfidence, ToolSet, Tools, PairHasAll, PairGrows;
    assert g[0] in g;
  }

  /** Some order of the group ends in another confidence than some other. */
  lemma ConditionShows(g: seq<Finding>) returns (h: seq<Finding>)
    requires g != [] && Known(g) && OrderDecides(g)
    ensures Reordered(g, h) && FoldGroup(h).confidence != FoldGroup(g).confidence
  {
    hide FoldGroup, MaxConfidence, ToolSet, News, EarlyNews, Known, OneHasAll, AllHaveAll, PairHasAll, PairGrows;
    TwoOrders(g, g);
    NotOneNotAll(g);
    var low := EndsLow(g);
    TwoOrders(g, low);
    var high;
    if MaxConfidence(g) == 2 {
      high := LikelyEndsHigh(g);
    } else {
      high := PotentialEndsHigh(g);
    }
    TwoOrders(g, high);
    h := if FoldGroup(low).confidence != FoldGroup(g).confidence then low else high;
  }

  /** The confidence of a group of findings whose confidence is known depends on the order in which they were
      reported exactly under this condition on the group. */
  lemma OrderMattersExactlyWhen(g: seq<Finding>)
    requires g != [] && Known(g)
    ensures (exists h :: Reordered(g, h) && FoldGroup(h).confidence != FoldGroup(g).confidence) <==> OrderDecides(g)
  {
    hide FoldGroup, OrderDecides, Known;
    if OrderDecides(g) {
      var h := ConditionShows(g);
    }
    forall h | Reordered(g, h) && FoldGroup(h).confidence != FoldGroup(g).confidence ensures OrderDecides(g) {
      EitherShows(g, h);
    }
  }

  lemma EitherShows(g: seq<Finding>, h: seq<Finding>)
    requires g != [] && Known(g) && Reordered(g, h) && FoldGroup(h).confidence != FoldGroup(g).confidence
    ensures OrderDecides(g)
  {
    hide FoldGroup, MaxConfidence, ToolSet, Tools;
    TwoOrders(g, h);
    MaxPermutes(g, h);
    if FoldGroup(g).confidence.Rank() < FoldGroup(h).confidence.Rank() {
      DifferenceShows(g, h);
    } else {
      DifferenceShows(h, g);
      SameCondition(g, h);
    }
  }

  lemma SameCondition(g: seq<Finding>, h: seq<Finding>)
    requires MaxConfidence(g) == MaxConfidence(h) && ToolSet(g) == ToolSet(h) && forall f :: f in h <==> f in g
    requires OrderDecides(h)
    ensures OrderDecides(g)
  {
    hide MaxConfidence, ToolSet, Tools;
  }

  // ----- one tool for each finding, as an adapter reports it -----

  predicate SingleStatements(g: seq<Finding>) {
    forall f :: f in g ==> |f.tools| == 1 && f.confidence.Rank() > 0
  }

  predicate SaysPotential(g: seq<Finding>, t: string) {
    exists f :: f in g && f.tools == [t] && f.confidence == Potential
  }

  /** Two tools, nothing better than likely, and each of the two has said potential. */
  predicate Contested(g: seq<Finding>) {
    |ToolSet(g)| == 2 && MaxConfidence(g) == 2 && forall t :: t in ToolSet(g) ==> SaysPotential(g, t)
  }

  lemma OneMore(a: set<string>, t: string)
    ensures |a + {t}| == if t in a then |a| else |a| + 1
  {
    if t in a { assert a + {t} == a; }
  }

  lemma ToolOf(g: seq<Finding>, f: Finding)
    requires SingleStatements(g) && f in g
    ensures |f.tools| == 1 && Tools(f) == {f.tools[0]} && f.tools == [f.tools[0]] && f.tools[0] in ToolSet(g)
  {
    SetsOfMembers(g);
    hide ToolSet;
    assert f.tools[0] in f.tools;
  }

  /** Findings of one tool each: if one has all the tools, there is only one tool. */
  lemma OneTool(g: seq<Finding>)
    requires SingleStatements(g) && OneHasAll(g)
    ensures AllHaveAll(g) && |ToolSet(g)| == 1
  {
    hide ToolSet, Tools;
    var f :| f in g && Tools(f) == ToolSet(g);
    ToolOf(g, f);
    forall o | o in g ensures Tools(o) == ToolSet(g) { ToolOf(g, o); }
  }

  /** With one tool each, the condition says that two tools disagree with themselves: each has said potential, one of
      them has said likely, and no third tool and no confirmed statement settles it. */
  lemma DecidesExactlyWhenContested(g: seq<Finding>)
    requires g != [] && SingleStatements(g)
    ensures Known(g) && (OrderDecides(g) <==> Contested(g))
  {
    hide ToolSet, Tools, MaxConfidence, SaysPotential, PairHasAll, PairGrows, OneHasAll, AllHaveAll;
    if OneHasAll(g) {
      OneTool(g);
    } else if PairHasAll(g) {
      TwoTools(g);
    } else if Contested(g) {
      ContestedPair(g);
    }
  }

  lemma TwoTools(g: seq<Finding>)
    requires SingleStatements(g) && PairHasAll(g) && !OneHasAll(g)
    ensures |ToolSet(g)| == 2 && !PairGrows(g) && forall t :: t in ToolSet(g) ==> SaysPotential(g, t)
  {
    hide ToolSet, Tools, MaxConfidence;
    var f, o :| f in g && o in g && f.confidence == o.confidence == Potential && Tools(f) + Tools(o) == ToolSet(g);
    ToolOf(g, f);
    ToolOf(g, o);
    UnionOfOne(f);
    OneMore({f.tools[0]}, o.tools[0]);
    forall x, y | x in g && y in g && !(Tools(y) <= Tools(x)) ensures Tools(x) + Tools(y) == ToolSet(g) {
      ToolOf(g, x);
      ToolOf(g, y);
    }
  }

  lemma ContestedPair(g: seq<Finding>)
    requires SingleStatements(g) && Contested(g)
    ensures PairHasAll(g)
  {
    hide MaxConfidence, ToolSet, Tools;
    var a :| a in ToolSet(g);
    OneMore(ToolSet(g) - {a}, a);
    assert (ToolSet(g) - {a}) + {a} == ToolSet(g);
    var b :| b in ToolSet(g) - {a};
    OneMore(ToolSet(g) - {a} - {b}, b);
    assert ToolSet(g) == {a, b};
    assert SaysPotential(g, a) && SaysPotential(g, b);
    var f :| f in g && f.tools == [a] && f.confidence == Potential;
    var o :| o in g && o.tools == [b] && o.confidence == Potential;
    ToolOf(g, f);
    ToolOf(g, o);
  }

  lemma SameToolSameFinding(g: seq<Finding>, f: Finding, o: Finding)
    requires OneToolEach(g) && f in g && o in g && f.tools == o.tools
    ensures f == o
  {
    var i :| 0 <= i < |g| && g[i] == f;
    var j :| 0 <= j < |g| && g[j] == o;
    assert MapSeq(FirstTool, g)[i] == MapSeq(FirstTool, g)[j];
  }

  /** Tools that speak once each cannot disagree with themselves: the order never matters. */
  lemma OneToolEachIsSettled(g: seq<Finding>)
    requires g != [] && OneToolEach(g)
    ensures Known(g) && !OrderDecides(g)
  {
    hide ToolSet, MaxConfidence, OrderDecides;
    DecidesExactlyWhenContested(g);
    if Contested(g) {
      MaxConfidenceIsMax(g);
      var f :| f in g && f.confidence.Rank() == MaxConfidence(g);
      var t := f.tools[0];
      SetsOfMembers(g);
      assert t in ToolSet(g) && SaysPotential(g, t);
      var o :| o in g && o.tools == [t] && o.confidence == Potential;
      SameToolSameFinding(g, f, o);
      assert false;
    }
  }

  // ----- everything else about a group -----

  /** When the order does not decide the confidence, nothing of the verdict or the lists depends on it. */
  lemma GroupOrderIndependent(g: seq<Finding>, h: seq<Finding>)
    requires g != [] && multiset(g) == multiset(h)
    requires Known(g) && !OrderDecides(g)
    requires forall f :: f in g ==> f.severity.Rank() > 0 && NoDuplicates(f.tools) && NoDuplicates(f.cve) && NoDuplicates(f.cwe)
    ensures h != []
    ensures var a, b := FoldGroup(g), FoldGroup(h);
            && a.severity == b.severity && a.confidence == b.confidence
            && a.tools == b.tools && a.cve == b.cve && a.cwe == b.cwe
            && multiset(a.evidence) == multiset(b.evidence)
  {
    hide FoldGroup, OrderDecides;
    SameElements(g, h);
    OrderMattersExactlyWhen(g);
    assert Reordered(g, h);
    SameSeverity(g, h);
    SameLists(g, h);
    AllEvidencePermutes(g, h);
    GroupUnions(g); GroupUnions(h);
  }

  lemma SameSeverity(g: seq<Finding>, h: seq<Finding>)
    requires g != [] && h != [] && multiset(g) == multiset(h)
    requires forall f :: f in g ==> f.severity.Rank() > 0
    ensures FoldGroup(g).severity == FoldGroup(h).severity
  {
    hide FoldGroup;
    SameElements(g, h);
    GroupSeverity(g); GroupSeverity(h);
  }

  lemma SameSets(g: seq<Finding>, h: seq<Finding>)
    requires multiset(g) == multiset(h)
    ensures ToolSet(g) == ToolSet(h) && CveSet(g) == CveSet(h) && CweSet(g) == CweSet(h)
  {
    SameElements(g, h);
    SetsOfMembers(g);
    SetsOfMembers(h);
    hide ToolSet, CveSet, CweSet;
  }

  lemma SameLists(g: seq<Finding>, h: seq<Finding>)
    requires g != [] && h != [] && multiset(g) == multiset(h)
    requires forall f :: f in g ==> NoDuplicates(f.tools) && NoDuplicates(f.cve) && NoDuplicates(f.cwe)
    ensures FoldGroup(g).tools == FoldGroup(h).tools
    ensures FoldGroup(g).cve == FoldGroup(h).cve
    ensures FoldGroup(g).cwe == FoldGroup(h).cwe
  {
    hide *;
    SameElements(g, h);
    if |g| == 1 {
      assert h[0] in h && g[0] in g;
      assert g == h;
    } else {
      GroupUnions(g); GroupUnions(h);
      SameSets(g, h);
      GroupListsSorted(g); GroupListsSorted(h);
      SortedListsAgree(FoldGroup(g).tools, FoldGroup(h).tools);
      SortedListsAgree(FoldGroup(g).cve, FoldGroup(h).cve);
      SortedListsAgree(FoldGroup(g).cwe, FoldGroup(h).cwe);
    }
  }

  ghost predicate SortedSet(s: seq<string>) { Sorted(StrLeq, s) && NoDuplicates(s) }

  lemma SortedListsAgree(a: seq<string>, b: seq<string>)
    requires SortedSet(a) && SortedSet(b)
    requires SetOf(a) == SetOf(b)
    ensures a == b
  {
    StrOrder();
    assert forall x :: x in a <==> x in SetOf(a);
    SameSetSameMultiset(a, b);
    SortedUnique(StrLeq, a, b);
  }

  lemma MergeUniqueSorted(a: seq<string>, b: seq<string>)
    requires NoDuplicates(a)
    ensures SortedSet(MergeUnique(a, b))
  {
    StrOrder();
    AppendNewNoDuplicates(a, b);
    SortBySorted(StrLeq, AppendNew(a, b));
    NoDuplicatesPermutes(AppendNew(a, b), MergeUnique(a, b));
  }

  lemma {:induction false} GroupListsSorted(g: seq<Finding>)
    requires |g| >= 2
    requires forall f :: f in g ==> NoDuplicates(f.tools) && NoDuplicates(f.cve) && NoDuplicates(f.cwe)
    ensures SortedSet(FoldGroup(g).tools) && SortedSet(FoldGroup(g).cve) && SortedSet(FoldGroup(g).cwe)
  {
    var n := |g| - 1;
    var h := g[..n];
    assert forall f :: f in h ==> f in g;
    if n == 1 {
      assert FoldGroup(h) == g[0] && g[0] in g;
    } else {
      GroupListsSorted(h);
    }
    var f := FoldGroup(h);
    MergeUniqueSorted(f.tools, g[n].tools);
    MergeUniqueSorted(f.cve, g[n].cve);
    MergeUniqueSorted(f.cwe, g[n].cwe);
  }

  lemma {:induction false} AllEvidenceSplit(a: seq<Finding>, b: seq<Finding>)
    ensures AllEvidence(a + b) == AllEvidence(a) + AllEvidence(b)
  {
    if b == [] {
      assert a + b == a;
    } else {
      var n := |b| - 1;
      assert (a + b)[..|a + b| - 1] == a + b[..n];
      AllEvidenceSplit(a, b[..n]);
      assert AllEvidence(a + b) == AllEvidence(a) + AllEvidence(b[..n]) + b[n].evidence;
    }
  }

  lemma {:induction false} AllEvidencePermutes(g: seq<Finding>, h: seq<Finding>)
    requires multiset(g) == multiset(h)
    ensures multiset(AllEvidence(g)) == multiset(AllEvidence(h))
    decreases |g|
  {
    SameElements(g, h);
    if g == [] {
      assert h == [];
    } else {
      hide AllEvidence;
      var n := |g| - 1;
      SplitLast(g);
      assert g[n] in h;
      var i :| 0 <= i < |h| && h[i] == g[n];
      RemoveAt(g, n);
      RemoveAt(h, i);
      assert g[..n] + g[n + 1..] == g[..n];
      AllEvidencePermutes(g[..n], h[..i] + h[i + 1..]);
      EvidenceTakenOut(g, n);
      EvidenceTakenOut(h, i);
    }
  }

  lemma EvidenceTakenOut(h: seq<Finding>, i: nat)
    requires i < |h|
    ensures multiset(AllEvidence(h)) == multiset(AllEvidence(h[..i] + h[i + 1..])) + multiset(h[i].evidence)
  {
    EvidenceOfOne(h[i]);
    hide AllEvidence;
    SplitAt(h, i);
    AllEvidenceSplit(h[..i], [h[i]] + h[i + 1..]);
    AllEvidenceSplit([h[i]], h[i + 1..]);
    AllEvidenceSplit(h[..i], h[i + 1..]);
  }

  lemma EvidenceOfOne(f: Finding)
    ensures AllEvidence([f]) == f.evidence
  {
    assert [f][..0] == [];
  }

  /** One such group: the later, stronger statement of a tool that was already counted is no longer promoted. */
  lemma RepeatedToolOrderMatters(f: Finding, other: Finding, stronger: Finding)
    requires f.tools == ["a"] && other == f.(tools := ["b"]) && stronger == f.(confidence := Likely)
    requires f.confidence == Potential
    ensures multiset([f, other, stronger]) == multiset([stronger, f, other])
    ensures FoldGroup([f, other, stronger]).confidence == Likely
    ensures FoldGroup([stronger, f, other]).confidence == Confirmed
    ensures Contested([f, other, stronger])
  {
    hide FoldGroup, OrderDecides, Contested;
    ThreeStatements(f, other, stronger);
    ThreeStatements(stronger, f, other);
    assert f.tools[0][0] != other.tools[0][0];
    var g, h := [f, other, stronger], [stronger, f, other];
    assert Reordered(g, h);
    OrderMattersExactlyWhen(g);
    DecidesExactlyWhenContested(g);
  }

  lemma ThreeStatements(x: Finding, y: Finding, z: Finding)
    requires |x.tools| == |y.tools| == |z.tools| == 1
    ensures var xy := HigherConfidence(x.confidence, y.confidence);
            var c := if x.tools == y.tools then xy else xy.Promote();
            var cz := HigherConfidence(c, z.confidence);
            FoldGroup([x, y, z]).confidence == if z.tools == x.tools || z.tools == y.tools then cz else cz.Promote()
  {
    hide FoldGroup, HigherConfidence;
    var g := [x, y, z];
    ConfidenceOfGroup(g);
    assert g[..2] == [x, y] && [x, y][..1] == [x] && [x][..0] == [];
    assert SetOf(x.tools) == {x.tools[0]} && SetOf(y.tools) == {y.tools[0]} && SetOf(z.tools) == {z.tools[0]};
    assert ToolSet([x]) == {x.tools[0]};
    assert ToolSet([x, y]) == {x.tools[0], y.tools[0]};
    SameTool(x, y); SameTool(x, z); SameTool(y, z);
    assert ConfidenceFold([x]) == x.confidence;
    assert ConfidenceFold([x, y]) ==
      if x.tools == y.tools then HigherConfidence(x.confidence, y.confidence)
      else HigherConfidence(x.confidence, y.confidence).Promote();
  }

  lemma SameTool(x: Finding, y: Finding)
    requires |x.tools| == |y.tools| == 1
    ensures x.tools == y.tools <==> x.tools[0] == y.tools[0]
  {
  }
}
