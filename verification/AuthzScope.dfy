/** internal/authz/authz.go: who the gate lets through, told by the labels of host names and by addresses in blocks,
    and what it makes of a target written as a URL. */
module AuthzScope {
  import opened Text
  import opened Ordering
  import opened Findings
  import opened Authz
  import opened AuthzGate
  import opened AuthzProofs

  // ----- who is let through -----

  /** The target names an asset: an address that can belong to one, or a name of the letters names are made of. */
  predicate NamesAnAsset(net: Net, t: string) {
    if net.isIp(t) then !net.unspecified(t) && !net.multicast(t)
    else forall c :: c in t ==> 'a' <= c <= 'z' || '0' <= c <= '9' || c == '-' || c == '.' || c == '_'
  }

  function AcceptedBy(d: Decision): seq<string> { if d.Allowed? then d.accepted else [] }

  lemma AssetIsAssessable(net: Net, t: string)
    requires BareHost(t)
    ensures InvalidTarget(net, t).None? <==> NamesAnAsset(net, t)
  {
    hide HostName, BareHost, BadChar;
    BareHostName(t);
    assert t != "" by { BareHostIsSome(t); }
    assert BadChar(t).None? <==> forall c :: c in t ==> HostChar(c);
  }

  lemma BareHostIsSome(t: string)
    requires BareHost(t)
    ensures t != ""
  {
  }

  /** A list of tidy entries is its own cleaned set. */
  lemma TidySet(xs: seq<string>)
    requires forall x :: x in xs ==> Tidy(x) && x != ""
    ensures forall x :: x in CleanedSet(xs) <==> x in xs
  {
    hide Clean, Tidy;
    forall x | x in xs ensures Clean(x) == x {
      TidyIsClean(x);
    }
  }

  lemma ClearsMeans(net: Net, scope: seq<string>, entries: seq<string>, t: string)
    requires BareHost(t) && forall e :: e in entries ==> PlainEntry(net, e)
    requires forall e :: e in scope <==> e in entries
    ensures Clears(net, scope)(t) <==>
            NamesAnAsset(net, t) && (entries == [] || exists e :: e in entries && LiesUnder(net, t, e))
  {
    hide InvalidTarget, BareHost, NamesAnAsset, Covers, LiesUnder, PlainEntry;
    AssetIsAssessable(net, t);
    assert scope == [] <==> entries == [] by {
      assert scope != [] ==> scope[0] in entries;
      assert entries != [] ==> entries[0] in scope;
    }
    forall e | e in entries ensures Covers(net, HostName(t), e) <==> LiesUnder(net, t, e) {
      CoversMeans(net, t, e);
    }
  }

  /** Past the form checks the gate accepts exactly the targets that name an asset and lie under the scope: inside a
      block of it, or with the labels of one of its names at the end of theirs. An empty scope lets all of them by. */
  lemma AcceptedExactly(hash: string -> string, net: Net, es: seq<Record>, req: Request, now: int, t: string)
    requires req.targets != [] && TrimSpace(req.operator) != "" && req.confirmed
    requires forall x :: x in req.targets <==> x in req.confirm
    requires (forall x :: x in req.targets ==> BareHost(x)) && (forall e :: e in req.scope ==> PlainEntry(net, e))
    ensures t in AcceptedBy(Decide(hash, net, es, req, now)) <==>
            && t in req.targets && NamesAnAsset(net, t)
            && (req.scope == [] || exists e :: e in req.scope && LiesUnder(net, t, e))
  {
    hide Normalise, CleanedSet, TrimSpace, Refusal, Linked, SkippedOf, BareHost, LiesUnder, NamesAnAsset, PlainEntry, Tidy, Clears;
    FormIsGood(req);
    GuardReached(req);
    EntriesAreTidy(net, req);
    TidySet(req.targets);
    TidySet(req.scope);
    NormaliseMembers(req.targets);
    NormaliseMembers(req.scope);
    if t in req.targets {
      ClearsMeans(net, Normalise(req.scope), req.scope, t);
    }
  }

  lemma EntriesAreTidy(net: Net, req: Request)
    requires (forall x :: x in req.targets ==> BareHost(x)) && (forall e :: e in req.scope ==> PlainEntry(net, e))
    ensures forall x :: x in req.targets ==> Tidy(x) && x != ""
    ensures forall e :: e in req.scope ==> Tidy(e) && e != ""
  {
    hide Tidy;
  }

  lemma FormIsGood(req: Request)
    requires req.targets != [] && TrimSpace(req.operator) != "" && req.confirmed
    requires forall x :: x in req.targets <==> x in req.confirm
    requires forall x :: x in req.targets ==> BareHost(x)
    ensures ReachesGuard(req)
  {
    hide TrimSpace, Clean, Tidy, BareHost, CleanedSet;
    forall x | x in req.targets ensures Tidy(x) && x != "" {
      BareHostIsTidy(x);
    }
    TidySet(req.targets);
    TidySet(req.confirm);
    assert req.targets[0] in CleanedSet(req.targets);
    assert CleanedSet(req.targets) == CleanedSet(req.confirm);
  }

  // ----- targets written as URLs -----

  /** Scheme, user, path, query and fragment are stripped: what is left is the host with its port. */
  lemma UrlIsStripped(scheme: string, user: string, core: string, rest: string)
    requires ':' !in scheme && Tail(rest) && Tidy(scheme + "://" + user + core + rest)
    requires user == "" || user[|user| - 1] == '@'
    requires forall c :: c in user ==> c != '/' && c != '?' && c != '#'
    requires forall c :: c in core ==> c != '/' && c != '?' && c != '#' && c != '@'
    ensures HostName(scheme + "://" + user + core + rest) == WithoutPort(core)
  {
    hide Clean, WithoutPort, IsSpace, Tidy, IndexOfPart, IndexOfAny, AfterLast;
    var t := scheme + "://" + user + core + rest;
    TidyIsClean(t);
    FirstScheme(scheme, user + core + rest);
    assert t == scheme + "://" + (user + core + rest);
    assert AfterScheme(t) == user + core + rest;
    FirstAmong(user + core, rest, "/?#");
    assert (user + core + rest)[..|user + core|] == user + core;
    AfterUser(user, core);
  }

  lemma {:induction false} AfterUser(user: string, core: string)
    requires (user == "" || user[|user| - 1] == '@') && '@' !in core
    ensures AfterLast(user + core, '@') == core
  {
    if user == "" {
      NothingBefore(core);
      assert user + core == core;
    } else {
      assert (user + core)[|user| - 1] == '@';
      assert (user + core)[1..] == user[1..] + core;
      AfterUser(user[1..], core);
    }
  }

  /** A port and one trailing dot are stripped. */
  lemma PortIsStripped(host: string, port: string)
    requires host != "" && ':' !in host && ':' !in port && host[0] != '[' && host[|host| - 1] != '.'
    ensures WithoutPort(host) == host && WithoutPort(host + ".") == host
    ensures WithoutPort(host + ":" + port) == host && WithoutPort(host + ".:" + port) == host
  {
    NoTrailingDot(host);
    FirstAmong(host, "", ":");
    FirstAmong(host + ".", "", ":");
    assert host + "" == host && host + "." + "" == host + ".";
    FirstAmong(host, ":" + port, ":");
    FirstAmong(host + ".", ":" + port, ":");
    CutAtColon(host, port);
    CutAtColon(host + ".", port);
    assert host + "." + ":" + port == host + ".:" + port;
  }

  /** So are the brackets of an address, with what follows them. */
  lemma BracketsAreStripped(addr: string, port: string)
    requires ']' !in addr
    ensures WithoutPort("[" + addr + "]" + port) == addr
  {
    var s := "[" + addr + "]" + port;
    FirstAmong("[" + addr, "]" + port, "]");
    assert s == "[" + addr + ("]" + port);
  }

  /** A bare address of several colons is kept whole. */
  lemma ColonsAreKept(a: string, b: string, c: string)
    requires ':' !in a && (a == "" || a[0] != '[') && c != "" && c[|c| - 1] != '.'
    ensures WithoutPort(a + ":" + b + ":" + c) == a + ":" + b + ":" + c
  {
    var s := a + ":" + b + ":" + c;
    FirstAmong(a, ":" + b + ":" + c, ":");
    assert s == a + (":" + b + ":" + c);
    assert s[|a| + 1..] == b + ":" + c;
    assert (b + ":" + c)[|b|] == ':';
    NoTrailingDot(s);
  }

  // ----- the evidence that is hashed -----

  lemma JoinNext(x: string, rest: seq<string>, sep: char)
    requires rest != []
    ensures Join([x] + rest, sep) == x + [sep] + Join(rest, sep)
  {
    assert ([x] + rest)[1..] == rest;
  }

  /** The fields of the text, each behind a zero byte: operator, statement, targets, scope, time, link. */
  lemma HashedTextMeans(r: Record)
    ensures HashedText(r) ==
            r.operator + ("\0" + (r.statement + ("\0" + (Join(r.targets, ',') + ("\0" + (Join(r.scope, ',') + ("\0" + (
            Itoa(r.at) + ("\0" + r.prevHash)))))))))
  {
    hide Join, Itoa;
    var f := Fields(r);
    assert Join([f[5]], NUL) == f[5] by { JoinOne(f[5]); }
    JoinNext(f[4], [f[5]], NUL);
    JoinNext(f[3], [f[4]] + [f[5]], NUL);
    JoinNext(f[2], [f[3]] + ([f[4]] + [f[5]]), NUL);
    JoinNext(f[1], [f[2]] + ([f[3]] + ([f[4]] + [f[5]])), NUL);
    JoinNext(f[0], [f[1]] + ([f[2]] + ([f[3]] + ([f[4]] + [f[5]]))), NUL);
    assert f == [f[0]] + ([f[1]] + ([f[2]] + ([f[3]] + ([f[4]] + [f[5]]))));
  }

  lemma JoinOne(x: string)
    ensures Join([x], NUL) == x
  {
  }
}
