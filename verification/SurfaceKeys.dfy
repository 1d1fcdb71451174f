/** The text keys under which `Build` looks up hosts and services: they never confuse two nodes. */
module SurfaceKeys {
  import opened Text
  import opened Ordering
  import opened Findings
  import opened Records
  import opened SurfaceTree
  import opened SurfaceBuild
  import opened SurfaceShape

  predicate IsHostStep(q: seq<Step>) { |q| == 2 && q[1].AtHost? }

  predicate IsPortStep(q: seq<Step>) { |q| >= 2 && q[|q| - 1].AtPort? }

  function HostKey(rootId: string, host: string): string { rootId + [NUL] + host }

  function ServiceKey(holderId: string, port: int): string { holderId + [NUL] + Itoa(port) }

  // ----- hosts -----

  lemma UnplacedHasNoNul()
    ensures NUL !in UNPLACED.key
  {
  }

  /** The longer of two texts in front of a separator holds the shorter one and the separator. */
  lemma LongerHead(x: string, a: string, y: string, b: string)
    requires x + [NUL] + a == y + [NUL] + b && |x| < |y|
    ensures NUL in y
    ensures |b| < |a| && a[|a| - |b|..] == b
  {
    var s := x + [NUL] + a;
    assert s[|x|] == NUL && y[|x|] == s[|x|];
    assert s[|s| - |b|..] == b;
    assert s[|s| - |a|..] == a;
  }

  lemma SuffixThrough(a: string, b: string, suffix: string)
    requires |b| <= |a| && a[|a| - |b|..] == b && HasSuffix(b, suffix)
    ensures HasSuffix(a, suffix)
  {
    assert a[|a| - |suffix|..] == b[|b| - |suffix|..];
  }

  /** The root of a host, when the host is not the root itself. */
  function RootKeyOf(plan: seq<RootInfo>, host: string): string {
    RootAt(plan, RootIndex(plan, host)).key
  }

  lemma NoLongerRoot(plan: seq<RootInfo>, a: string, b: string)
    requires NoDuplicates(Keys(plan)) && RootKeyOf(plan, b) != b
    requires RootKeyOf(plan, a) + [NUL] + a == RootKeyOf(plan, b) + [NUL] + b
    ensures |RootKeyOf(plan, a)| >= |RootKeyOf(plan, b)|
  {
    hide RootIndex;
    var i, j := RootIndex(plan, a), RootIndex(plan, b);
    var x, y := RootKeyOf(plan, a), RootKeyOf(plan, b);
    if |x| < |y| {
      LongerHead(x, a, y, b);
      if j < |plan| {
        RootIsLongestSuffix(plan, b);
        SuffixThrough(a, b, "." + y);
        RootIsLongestSuffix(plan, a);
      } else {
        UnplacedHasNoNul();
      }
    }
  }

  lemma SameHead(x: string, a: string, y: string, b: string)
    requires x + [NUL] + a == y + [NUL] + b && |x| == |y|
    ensures x == y && a == b
  {
    var s := x + [NUL] + a;
    assert s[..|x|] == x && s[..|y|] == y;
    assert s[|x| + 1..] == a && s[|y| + 1..] == b;
  }

  /** Although host names are not checked for the separator, two hosts never share a key: a host is looked up
      under the longest declared root above it. */
  lemma HostKeyDecides(plan: seq<RootInfo>, a: string, b: string)
    requires NoDuplicates(Keys(plan)) && RootKeyOf(plan, a) != a && RootKeyOf(plan, b) != b
    requires HostKey("root:" + RootKeyOf(plan, a), a) == HostKey("root:" + RootKeyOf(plan, b), b)
    ensures a == b
  {
    hide RootKeyOf;
    var x, y := RootKeyOf(plan, a), RootKeyOf(plan, b);
    assert HostKey("root:" + x, a)[5..] == x + [NUL] + a;
    assert HostKey("root:" + y, b)[5..] == y + [NUL] + b;
    NoLongerRoot(plan, a, b);
    NoLongerRoot(plan, b, a);
    SameHead(x, a, y, b);
  }

  // ----- services -----

  lemma LastNul(a: string, p: int)
    ensures var s := ServiceKey(a, p);
            && s[..|a|] == a && s[|a|] == NUL && s[|a| + 1..] == Itoa(p)
            && forall k :: |a| < k < |s| ==> s[k] != NUL
  {
    var s := ServiceKey(a, p);
    forall k | |a| < k < |s| ensures s[k] != NUL {
      assert s[k] == Itoa(p)[k - |a| - 1] && Itoa(p)[k - |a| - 1] in Itoa(p);
    }
  }

  lemma ServiceKeyParts(a: string, p: int, b: string, q: int)
    requires ServiceKey(a, p) == ServiceKey(b, q)
    ensures a == b && p == q
  {
    LastNul(a, p);
    LastNul(b, q);
    var s := ServiceKey(a, p);
    assert s[|a|] == NUL && s[|b|] == NUL;
    ItoaInjective(p, q);
  }

  lemma HolderId(plan: seq<RootInfo>, host: string)
    ensures NodeId(plan, Holder(plan, host)) == if |Holder(plan, host)| == 2 then "host:" + host else "root:" + host
  {
    hide RootIndex;
  }

  lemma HolderIdDecides(plan: seq<RootInfo>, a: string, b: string)
    requires NodeId(plan, Holder(plan, a)) == NodeId(plan, Holder(plan, b))
    ensures a == b
  {
    hide Holder, NodeId;
    HolderId(plan, a);
    HolderId(plan, b);
    var s, t := NodeId(plan, Holder(plan, a)), NodeId(plan, Holder(plan, b));
    assert s[0] == 'h' || s[0] == 'r';
    assert s[5..] == a && t[5..] == b;
  }

  /** Two services share a key only when they are one: same holder, same port. */
  lemma ServiceKeyDecides(plan: seq<RootInfo>, a: string, p: int, b: string, q: int)
    requires ServiceKey(NodeId(plan, Holder(plan, a)), p) == ServiceKey(NodeId(plan, Holder(plan, b)), q)
    ensures a == b && p == q
  {
    hide Holder, NodeId, ServiceKey;
    ServiceKeyParts(NodeId(plan, Holder(plan, a)), p, NodeId(plan, Holder(plan, b)), q);
    HolderIdDecides(plan, a, b);
  }
}
