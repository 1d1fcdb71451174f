/** internal/authz/authz.go: the scope guard, the gate, and the log it appends to. */
module AuthzGate {
  import opened Text
  import opened Ordering
  import opened Findings
  import opened Authz

  // ----- the scope guard -----

  /** Parsing of addresses and of CIDR blocks, left to the library. */
  datatype Net = Net(
    isIp: string -> bool, unspecified: string -> bool, multicast: string -> bool,
    isBlock: string -> bool, inBlock: (string, string) -> bool)

  function AfterLast(s: string, c: char): string {
    if c in s then AfterLast(s[1..], c) else s
  }

  /** A target without scheme, path, user, port and trailing dot. */
  function HostName(t: string): string {
    var s := AfterScheme(Clean(t));
    WithoutPort(AfterLast(s[..IndexOfAny(s, "/?#")], '@'))
  }

  function AfterScheme(s: string): string {
    var i := IndexOfPart(s, "://");
    if i < |s| then s[i + 3..] else s
  }

  function WithoutPort(s: string): string {
    if HasPrefix(s, "[") then
      var k := IndexOfAny(s, "]");
      if 0 < k < |s| then s[1..k] else ""
    else
      var k := IndexOfAny(s, ":");
      TrimDot(if k < |s| && ':' !in s[k + 1..] then s[..k] else s)
  }

  predicate HostChar(c: char) {
    c == '-' || c == '.' || c == '_' || 'a' <= c <= 'z' || '0' <= c <= '9'
  }

  /** The complaint about the first character that does not belong in a host name. */
  function BadChar(host: string): (m: Option<string>)
    ensures m.None? <==> forall c :: c in host ==> HostChar(c)
    ensures m.Some? ==> m.value != ""
  {
    if host == "" then None else
    assert host[0] in host && forall c :: c in host <==> c == host[0] || c in host[1..];
    if host[0] > '\U{7F}' then Some("hostname contains non-ASCII characters; use the punycode form")
    else if !HostChar(host[0]) then Some("hostname contains characters that are not valid in a host name")
    else BadChar(host[1..])
  }

  function InvalidTarget(net: Net, t: string): (m: Option<string>)
    ensures m.Some? ==> m.value != ""
  {
    var host := HostName(t);
    if t == "" then Some("empty target")
    else if host == "" then Some("target could not be parsed")
    else if !net.isIp(host) then BadChar(host)
    else if net.unspecified(host) then Some("unspecified addresses do not name an asset")
    else if net.multicast(host) then Some("multicast addresses do not name an asset")
    else None
  }

  /** A scope entry is a block that holds the address, the host itself, or a domain above it. */
  predicate Covers(net: Net, host: string, entry: string) {
    var s := Clean(entry);
    s != "" &&
    if net.isBlock(s) then net.isIp(host) && net.inBlock(s, host)
    else HostName(s) != "" && Under(host, HostName(s))
  }

  predicate InScope(net: Net, target: string, scope: seq<string>) {
    exists s :: s in scope && Covers(net, HostName(target), s)
  }

  // ----- plainly written hosts -----

  /** A target written as nothing but a host: no scheme, user, port, path, bracket or trailing dot. */
  predicate BareHost(s: string) {
    s != "" && Tidy(s) && s[|s| - 1] != '.'
    && forall c :: c in s ==> c != ':' && c != '/' && c != '?' && c != '#' && c != '@' && c != '['
  }

  /** A scope entry: a block of addresses, or a host. */
  predicate PlainEntry(net: Net, e: string) {
    if net.isBlock(e) then e != "" && Tidy(e) else BareHost(e)
  }

  /** The target lies under a scope entry: inside the block, or the same name or one below it, label by label. */
  predicate LiesUnder(net: Net, t: string, e: string) {
    if net.isBlock(e) then net.isIp(t) && net.inBlock(e, t) else EndsWith(Labels(t), Labels(e))
  }

  lemma BareHostName(s: string)
    requires BareHost(s)
    ensures HostName(s) == s
  {
    hide Clean, IsSpace;
    TidyIsClean(s);
    NoScheme(s);
    FirstAmong(s, "", "/?#");
    FirstAmong(s, "", ":");
    assert s + "" == s;
    NothingBefore(s);
    assert s[0] in s;
    NoTrailingDot(s);
    assert AfterScheme(s) == s;
    assert WithoutPort(s) == s;
  }

  lemma {:induction false} NothingBefore(s: string)
    requires '@' !in s
    ensures AfterLast(s, '@') == s
  {
  }

  lemma CoversMeans(net: Net, t: string, e: string)
    requires BareHost(t) && PlainEntry(net, e)
    ensures Covers(net, HostName(t), e) <==> LiesUnder(net, t, e)
  {
    hide HostName, BareHost, Clean, Tidy, EndsWith, Labels;
    BareHostName(t);
    if net.isBlock(e) {
      TidyIsClean(e);
    } else {
      assert Tidy(e) && e != "" by { BareHostIsTidy(e); }
      TidyIsClean(e);
      BareHostName(e);
      UnderMeansLabels(t, e);
    }
  }

  lemma BareHostIsTidy(e: string)
    requires BareHost(e)
    ensures Tidy(e) && e != ""
  {
  }

  /** For plain hosts, being in scope is lying under an entry. */
  lemma ScopeMeans(net: Net, target: string, scope: seq<string>)
    requires BareHost(target) && forall e :: e in scope ==> PlainEntry(net, e)
    ensures InScope(net, target, scope) <==> exists e :: e in scope && LiesUnder(net, target, e)
  {
    hide BareHost, PlainEntry, Covers, LiesUnder, HostName;
    forall e | e in scope ensures Covers(net, HostName(target), e) <==> LiesUnder(net, target, e) {
      CoversMeans(net, target, e);
    }
  }

  // ----- the loop over the scope -----

  method InScopeLoop(net: Net, target: string, scope: seq<string>) returns (r: bool)
    ensures r <==> InScope(net, target, scope)
    ensures BareHost(target) && (forall e :: e in scope ==> PlainEntry(net, e)) ==>
              (r <==> exists e :: e in scope && LiesUnder(net, target, e))
  {
    hide HostName, Clean, BareHost, PlainEntry, LiesUnder;
    if BareHost(target) && forall e :: e in scope ==> PlainEntry(net, e) {
      ScopeMeans(net, target, scope);
    }
    var host := HostName(target);
    for i := 0 to |scope|
      invariant forall k :: 0 <= k < i ==> !Covers(net, host, scope[k])
    {
      var s := Clean(scope[i]);
      if s == "" {
        continue;
      }
      if net.isBlock(s) {
        if net.isIp(host) && net.inBlock(s, host) {
          assert scope[i] in scope;
          return true;
        }
        continue;
      }
      var sh := HostName(s);
      if sh == "" {
        continue;
      }
      if host == sh || HasSuffix(host, "." + sh) {
        assert scope[i] in scope;
        return true;
      }
    }
    return false;
  }

  /** Why a target is refused, if it is. An empty scope means the targets are the scope. */
  function Refusal(net: Net, scope: seq<string>, t: string): (m: Option<string>)
    ensures m.Some? ==> m.value != ""
  {
    match InvalidTarget(net, t)
    case Some(e) => Some(e)
    case None => if scope != [] && !InScope(net, t, scope) then Some("outside the declared scope") else None
  }

  // ----- the gate -----

  datatype Request = Request(
    operator: string, statement: string, targets: seq<string>, confirm: seq<string>, scope: seq<string>, confirmed: bool)

  datatype Skipped = Skipped(target: string, reason: string)

  datatype Decision = Refused(reason: string, dropped: seq<Skipped>)
                    | Allowed(accepted: seq<string>, skipped: seq<Skipped>, record: Record)

  function Clears(net: Net, scope: seq<string>): string -> bool {
    t => Refusal(net, scope, t).None?
  }

  function Accepted(net: Net, scope: seq<string>, ts: seq<string>): seq<string> {
    Filter(Clears(net, scope), ts)
  }

  function SkippedOf(net: Net, scope: seq<string>, ts: seq<string>): (r: seq<Skipped>)
    ensures forall x :: x in r ==> x.reason != ""
  {
    if ts == [] then [] else
      var t := ts[|ts| - 1];
      var r := SkippedOf(net, scope, ts[..|ts| - 1]);
      match Refusal(net, scope, t)
      case None => r
      case Some(m) => r + [Skipped(t, m)]
  }

  function TargetOf(s: Skipped): string { s.target }

  function Decide(hash: string -> string, net: Net, es: seq<Record>, req: Request, now: int): Decision {
    var targets := Normalise(req.targets);
    if targets == [] then Refused("No targets were supplied.", [])
    else if TrimSpace(req.operator) == "" then
      Refused("An operator name is required, so the assessment can be attributed.", [])
    else if !req.confirmed then Refused("The authorisation statement was not accepted.", [])
    else if targets != Normalise(req.confirm) then
      Refused("The re-entered target list does not match the targets to be assessed.", [])
    else
      var scope := Normalise(req.scope);
      var accepted := Accepted(net, scope, targets);
      var skipped := SkippedOf(net, scope, targets);
      if accepted == [] then Refused("No target survived the scope guard.", skipped)
      else
        Allowed(accepted, skipped, Linked(hash, es,
          Record(TrimSpace(req.operator), TrimSpace(req.statement), accepted, scope, now, "", "")))
  }

  /** The append-only log of authorisation events. */
  class Log {
    const hash: string -> string
    const net: Net
    var entries: seq<Record>

    constructor (hash: string -> string, net: Net)
      ensures this.hash == hash && this.net == net && entries == []
    {
      this.hash := hash;
      this.net := net;
      entries := [];
    }

    method Append(r: Record) returns (out: Record)
      modifies this
      ensures entries == old(entries) + [out]
      ensures Verifies(hash, old(entries)) ==> Verifies(hash, entries)
      ensures out.(prevHash := r.prevHash, entryHash := r.entryHash) == r
      ensures out == Linked(hash, old(entries), r)
    {
      var prev := "";
      var n := |entries|;
      if n > 0 {
        prev := entries[n - 1].entryHash;
      }
      out := r.(prevHash := prev);
      out := out.(entryHash := hash(HashedText(out)));
      VerifiesSnoc(hash, entries, out);
      entries := entries + [out];
    }

    /** Walks the chain: the position of the first broken link, and whether it is the entry's own hash
        that is wrong rather than its link to the entry before. */
    method Verify() returns (broken: Option<(nat, bool)>)
      ensures broken.None? <==> Verifies(hash, entries)
      ensures broken.Some? ==>
                var (i, own) := broken.value;
                i < |entries| && Verifies(hash, entries[..i])
                && (own <==> PrevHolds(entries, i)) && (own ==> !HashHolds(hash, entries[i]))
    {
      var prev := "";
      for i := 0 to |entries|
        invariant prev == Tip(entries[..i])
        invariant forall k :: 0 <= k < i ==> PrevHolds(entries, k) && HashHolds(hash, entries[k])
      {
        var r := entries[i];
        if r.prevHash != prev {
          assert !PrevHolds(entries, i);
          PrefixHolds(hash, entries, i);
          return Some((i, false));
        }
        if r.entryHash != hash(HashedText(r)) {
          assert !HashHolds(hash, entries[i]);
          PrefixHolds(hash, entries, i);
          return Some((i, true));
        }
        prev := r.entryHash;
      }
      return None;
    }

    method Gate(req: Request, now: int) returns (d: Decision)
      modifies this
      ensures d == Decide(hash, net, old(entries), req, now)
      ensures entries == old(entries) + if d.Allowed? then [d.record] else []
      ensures Verifies(hash, old(entries)) ==> Verifies(hash, entries)
    {
      hide Normalise, Refusal, Linked, Verifies;
      var targets := NormaliseList(req.targets);
      if |targets| == 0 {
        return Refused("No targets were supplied.", []);
      }
      if TrimSpace(req.operator) == "" {
        return Refused("An operator name is required, so the assessment can be attributed.", []);
      }
      if !req.confirmed {
        return Refused("The authorisation statement was not accepted.", []);
      }
      var confirm := NormaliseList(req.confirm);
      var same := EqualLists(targets, confirm);
      if !same {
        return Refused("The re-entered target list does not match the targets to be assessed.", []);
      }
      var scope := NormaliseList(req.scope);
      var accepted, skipped := Sift(targets, scope);
      if |accepted| == 0 {
        return Refused("No target survived the scope guard.", skipped);
      }
      var rec := Append(Record(TrimSpace(req.operator), TrimSpace(req.statement), accepted, scope, now, "", ""));
      return Allowed(accepted, skipped, rec);
    }

    method Sift(targets: seq<string>, scope: seq<string>) returns (accepted: seq<string>, skipped: seq<Skipped>)
      ensures accepted == Accepted(net, scope, targets)
      ensures skipped == SkippedOf(net, scope, targets)
    {
      hide InvalidTarget, InScope;
      accepted, skipped := [], [];
      for i := 0 to |targets|
        invariant accepted == Accepted(net, scope, targets[..i])
        invariant skipped == SkippedOf(net, scope, targets[..i])
      {
        var t := targets[i];
        TakeNext(targets, i);
        FilterStep(Clears(net, scope), targets[..i], t);
        SkippedStep(net, scope, targets[..i], t);
        var invalid := InvalidTarget(net, t);
        if invalid.Some? {
          skipped := skipped + [Skipped(t, invalid.value)];
          continue;
        }
        if |scope| > 0 {
          var within := InScopeLoop(net, t, scope);
          if !within {
            skipped := skipped + [Skipped(t, "outside the declared scope")];
            continue;
          }
        }
        accepted := accepted + [t];
      }
      assert targets[..|targets|] == targets;
    }
  }

  lemma PrefixHolds(hash: string -> string, es: seq<Record>, n: nat)
    requires n <= |es|
    requires forall k :: 0 <= k < n ==> PrevHolds(es, k) && HashHolds(hash, es[k])
    ensures Verifies(hash, es[..n])
  {
    forall i | 0 <= i < n ensures PrevHolds(es[..n], i) && HashHolds(hash, es[..n][i]) {
      assert es[..n][..i] == es[..i];
    }
  }

  lemma SkippedStep(net: Net, scope: seq<string>, ts: seq<string>, t: string)
    ensures SkippedOf(net, scope, ts + [t])
            == match Refusal(net, scope, t)
               case None => SkippedOf(net, scope, ts)
               case Some(m) => SkippedOf(net, scope, ts) + [Skipped(t, m)]
  {
    hide Refusal;
    var s := ts + [t];
    assert s[..|s| - 1] == ts && s[|s| - 1] == t;
  }
}
