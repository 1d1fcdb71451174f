/** internal/aiclient/evidence.go: the bounded, secret-free copy of an evidence map. A nil map is the empty
    map; a value of any other Go type is what it marshals to, if it does. */
module Evidence {
  import opened Text
  import opened Ordering
  import opened Findings

  const MAX_KEYS := 24
  const MAX_STRING := 400
  const MAX_LIST := 12
  const MAX_DEPTH := 3

  const TOO_DEEP := "[omitted: nested too deep]"
  const NOT_SERIALISABLE := "[omitted: not serialisable]"

  const MARKERS: seq<string> := [
    "password", "passwd", "passphrase", "secret", "token", "apikey",
    "api_key", "api-key", "private", "credential", "cookie", "session",
    "authorization", "bearer", "license_key", "licence_key", "signature"]

  datatype Value =
    | Null
    | Boolean(b: bool)
    | Number(n: real)
    | Str(s: string)
    | Object(m: map<string, Value>)
    | List(items: seq<Value>)
    | Strings(texts: seq<string>)
    | Other(json: Option<Value>)

  predicate IsSecret(key: string) {
    exists m :: m in MARKERS && Contains(Lower(key), m)
  }

  /** `b` is the letter `a` in lower case, or the same character. */
  predicate SameLetter(a: char, b: char) {
    if 'A' <= a <= 'Z' then a as int + 32 == b as int else a == b
  }

  /** From position `i` on, the key spells the word, in capitals or not. */
  predicate Spells(key: string, word: string, i: nat) {
    i + |word| <= |key| && forall j :: 0 <= j < |word| ==> SameLetter(key[i + j], word[j])
  }

  /** The key holds one of the words that give a secret away. */
  ghost predicate GivesAway(key: string) {
    exists word, i: nat :: Spells(key, word, i) && word in
      ["password", "passwd", "passphrase", "secret", "token", "apikey", "api_key", "api-key", "private", "credential",
       "cookie", "session", "authorization", "bearer", "license_key", "licence_key", "signature"]
  }

  lemma SpellsMeans(key: string, word: string, i: nat)
    ensures StandsAt(Lower(key), word, i) <==> Spells(key, word, i)
  {
    var l := Lower(key);
    if i + |word| <= |key| {
      if Spells(key, word, i) {
        assert l[i..i + |word|] == word by {
          forall j | 0 <= j < |word| ensures l[i + j] == word[j] {
            LowerLetter(key[i + j], word[j]);
          }
        }
      }
      if StandsAt(l, word, i) {
        forall j | 0 <= j < |word| ensures SameLetter(key[i + j], word[j]) {
          assert l[i..i + |word|][j] == l[i + j];
          LowerLetter(key[i + j], word[j]);
        }
      }
    }
  }

  lemma LowerLetter(a: char, b: char)
    ensures LowerChar(a) == b <==> SameLetter(a, b)
  {
  }

  /** A key is taken for secret exactly when it holds one of the words, letter for letter, in capitals or not. */
  lemma SecretMeans(key: string)
    ensures IsSecret(key) <==> GivesAway(key)
  {
    hide Contains, Lower, StandsAt, Spells;
    forall word ensures Contains(Lower(key), word) <==> exists i: nat :: Spells(key, word, i) {
      ContainsMeans(Lower(key), word);
      forall i: nat ensures StandsAt(Lower(key), word, i) <==> Spells(key, word, i) {
        SpellsMeans(key, word, i);
      }
    }
  }

  function TruncateRunes(s: string, n: nat): (r: string)
    ensures |r| <= n + 1
    ensures |s| <= n ==> r == s
  {
    if |s| <= n then s else s[..n] + "…"
  }

  // ----- which keys are kept -----

  function OpenKeys(keys: set<string>): (r: set<string>)
    ensures r <= keys
  {
    set k | k in keys && !IsSecret(k)
  }

  function Before(keys: set<string>, k: string): set<string> {
    set j | j in keys && j != k && StrLeq(j, k)
  }

  /** The first `MAX_KEYS` keys that are not secret, in sorted order: those with fewer others before them. */
  function Kept(keys: set<string>): (r: set<string>)
    ensures r <= keys && forall k :: k in r ==> !IsSecret(k)
  {
    set k | k in OpenKeys(keys) && |Before(OpenKeys(keys), k)| < MAX_KEYS
  }

  /** The keys without a secret word that stand before `k` in byte order. */
  ghost function Earlier(m: map<string, Value>, k: string): set<string> {
    set j | j in m && !GivesAway(j) && j != k && StrLeq(j, k)
  }

  lemma KeptMeans(m: map<string, Value>, k: string)
    ensures k in Kept(m.Keys) <==> k in m && !GivesAway(k) && |Earlier(m, k)| < 24
  {
    hide IsSecret, GivesAway, StrLeq;
    forall j ensures IsSecret(j) <==> GivesAway(j) {
      SecretMeans(j);
    }
    assert Before(OpenKeys(m.Keys), k) == Earlier(m, k);
  }

  function Few<T>(s: seq<T>): (r: seq<T>)
    ensures |r| <= MAX_LIST && r <= s
  {
    if |s| > MAX_LIST then s[..MAX_LIST] else s
  }

  // ----- the sanitiser -----

  function Sanitise(v: Value, depth: nat): Value {
    match v
    case Str(s) => Str(TruncateRunes(s, MAX_STRING))
    case Object(m) =>
      if depth >= MAX_DEPTH then Str(TOO_DEEP)
      else Object(map k | k in m && k in Kept(m.Keys) :: Sanitise(m[k], depth + 1))
    case List(items) =>
      if depth >= MAX_DEPTH then Str(TOO_DEEP)
      else List(seq(|Few(items)|, i requires 0 <= i < |Few(items)| => Sanitise(items[i], depth + 1)))
    case Strings(texts) =>
      List(seq(|Few(texts)|, i requires 0 <= i < |Few(texts)| => Str(TruncateRunes(texts[i], MAX_STRING))))
    case Other(Some(j)) => Sanitise(j, depth)
    case Other(None) => Str(NOT_SERIALISABLE)
    case _ => v
  }

  /** The entry point sanitises the map at depth 1. */
  function SanitiseMap(m: map<string, Value>, depth: nat): (r: map<string, Value>)
    ensures r.Keys == Kept(m.Keys)
    ensures 0 < depth <= MAX_DEPTH ==> Object(r) == Sanitise(Object(m), depth - 1)
  {
    map k | k in m && k in Kept(m.Keys) :: Sanitise(m[k], depth)
  }

  // ----- secrets do not matter -----

  /** The value without anything under a secret key, at any depth. */
  ghost function Redact(v: Value): Value {
    match v
    case Object(m) => Object(map k | k in m && !GivesAway(k) :: Redact(m[k]))
    case List(items) => List(seq(|items|, i requires 0 <= i < |items| => Redact(items[i])))
    case Other(Some(j)) => Other(Some(Redact(j)))
    case _ => v
  }

  lemma OpenOfOpen(keys: set<string>)
    ensures OpenKeys(OpenKeys(keys)) == OpenKeys(keys)
    ensures Kept(OpenKeys(keys)) == Kept(keys)
  {
    assert OpenKeys(OpenKeys(keys)) == OpenKeys(keys);
  }

  lemma OpenMeans(keys: set<string>)
    ensures forall k :: k in OpenKeys(keys) <==> k in keys && !GivesAway(k)
  {
    hide GivesAway, IsSecret;
    forall k ensures IsSecret(k) <==> GivesAway(k) {
      SecretMeans(k);
    }
  }

  lemma KeptIsOpen(keys: set<string>, k: string)
    requires k in Kept(keys)
    ensures k in OpenKeys(keys)
  {
  }

  /** The output does not depend on anything under a secret key. */
  lemma {:induction false} SecretsDoNotMatter(v: Value, depth: nat)
    ensures Sanitise(Redact(v), depth) == Sanitise(v, depth)
  {
    hide Kept, OpenKeys, TruncateRunes, GivesAway;
    match v
    case Object(m) =>
      if depth < MAX_DEPTH {
        OpenOfOpen(m.Keys);
        OpenMeans(m.Keys);
        var r, s := Sanitise(Redact(v), depth).m, Sanitise(v, depth).m;
        assert Redact(v).m.Keys == OpenKeys(m.Keys);
        forall k | k in s ensures k in r && r[k] == s[k] {
          KeptIsOpen(m.Keys, k);
          SecretsDoNotMatter(m[k], depth + 1);
        }
        assert r.Keys == s.Keys;
      }
    case List(items) =>
      forall i | 0 <= i < |items| ensures Sanitise(Redact(items[i]), depth + 1) == Sanitise(items[i], depth + 1) {
        SecretsDoNotMatter(items[i], depth + 1);
      }
    case Other(Some(j)) =>
      SecretsDoNotMatter(j, depth);
    case _ =>
  }

  /** Two evidence maps that differ only under secret keys are sent as one. */
  lemma NonInterference(a: map<string, Value>, b: map<string, Value>)
    requires Redact(Object(a)) == Redact(Object(b))
    ensures SanitiseMap(a, 1) == SanitiseMap(b, 1)
  {
    hide Sanitise, Redact;
    SecretsDoNotMatter(Object(a), 0);
    SecretsDoNotMatter(Object(b), 0);
  }

  // ----- what is sent -----

  predicate ShortText(v: Value) { v.Str? && |v.s| <= MAX_STRING + 1 }

  /** JSON only, no secret key at any depth, every bound respected, and at most `room` levels of nesting, below
      which a list of texts may still stand. */
  ghost predicate Bounded(v: Value, room: nat)
    decreases v
  {
    match v
    case Str(_) => ShortText(v)
    case Object(m) =>
      room > 0 && |m.Keys| <= MAX_KEYS && forall k :: k in m ==> !GivesAway(k) && Bounded(m[k], room - 1)
    case List(items) =>
      |items| <= MAX_LIST
      && forall i :: 0 <= i < |items| ==> if room > 0 then Bounded(items[i], room - 1) else ShortText(items[i])
    case Strings(_) => false
    case Other(_) => false
    case _ => true
  }

  lemma OrderedBefore(keys: set<string>, j: string, k: string)
    requires j in keys && k in keys && j != k && StrLeq(j, k)
    ensures |Before(keys, j)| < |Before(keys, k)|
  {
    StrOrder();
    assert Before(keys, j) + {j} <= Before(keys, k);
    SubsetSize(Before(keys, j) + {j}, Before(keys, k));
  }

  /** Distinct positions: at most `n` keys have fewer than `n` others before them. */
  lemma {:induction false} FewBefore(keys: set<string>, some: set<string>, n: nat)
    requires some <= keys && forall k :: k in some ==> |Before(keys, k)| < n
    ensures |some| <= n
    decreases n
  {
    hide StrLeq;
    if some != {} {
      if k :| k in some && |Before(keys, k)| == n - 1 {
        forall j | j in some - {k} ensures |Before(keys, j)| < n - 1 {
          StrTotal(j, k);
          if StrLeq(j, k) {
            OrderedBefore(keys, j, k);
          } else {
            OrderedBefore(keys, k, j);
          }
        }
        FewBefore(keys, some - {k}, n - 1);
      } else {
        FewBefore(keys, some, n - 1);
      }
    }
  }

  lemma KeptAreFew(keys: set<string>)
    ensures |Kept(keys)| <= MAX_KEYS
  {
    FewBefore(OpenKeys(keys), Kept(keys), MAX_KEYS);
  }

  lemma {:induction false} SanitisedIsBounded(v: Value, depth: nat)
    requires depth <= MAX_DEPTH
    ensures Bounded(Sanitise(v, depth), MAX_DEPTH - depth)
  {
    hide Kept, IsSecret, GivesAway;
    match v
    case Object(m) =>
      KeptAreFew(m.Keys);
      if depth < MAX_DEPTH {
        var s := Sanitise(v, depth).m;
        assert s.Keys == Kept(m.Keys);
        forall k | k in s ensures !GivesAway(k) && Bounded(s[k], MAX_DEPTH - depth - 1) {
          SecretMeans(k);
          SanitisedIsBounded(m[k], depth + 1);
        }
      }
    case List(items) =>
      if depth < MAX_DEPTH {
        forall i | 0 <= i < |Few(items)| ensures Bounded(Sanitise(items[i], depth + 1), MAX_DEPTH - depth - 1) {
          SanitisedIsBounded(items[i], depth + 1);
        }
      }
    case Strings(texts) =>
      assert forall i :: 0 <= i < |Few(texts)| ==> ShortText(Str(TruncateRunes(texts[i], MAX_STRING)));
    case Other(Some(j)) =>
      SanitisedIsBounded(j, depth);
    case _ =>
  }

  // ----- how much is sent -----

  /** The number of scalars in a value. */
  ghost function Leaves(v: Value): nat
    decreases v, 2
  {
    match v
    case Object(m) => LeavesUnder(v, m.Keys)
    case List(items) => LeavesIn(v, |items|)
    case Strings(texts) => |texts|
    case Other(Some(j)) => Leaves(j)
    case _ => 1
  }

  ghost function LeavesUnder(v: Value, keys: set<string>): nat
    requires v.Object? && keys <= v.m.Keys
    decreases v, 1, |keys|
  {
    if keys == {} then 0
    else
      var k :| k in keys;
      Leaves(v.m[k]) + LeavesUnder(v, keys - {k})
  }

  ghost function LeavesIn(v: Value, n: nat): nat
    requires v.List? && n <= |v.items|
    decreases v, 1, n
  {
    if n == 0 then 0 else LeavesIn(v, n - 1) + Leaves(v.items[n - 1])
  }

  function LeafBound(room: nat): nat {
    if room == 0 then MAX_LIST else MAX_KEYS * LeafBound(room - 1)
  }

  lemma OneMore(n: nat, b: nat)
    ensures (n + 1) * b == n * b + b
  {
  }

  lemma {:induction false} UnderBound(v: Value, keys: set<string>, b: nat)
    requires v.Object? && keys <= v.m.Keys
    requires forall k :: k in keys ==> Leaves(v.m[k]) <= b
    ensures LeavesUnder(v, keys) <= |keys| * b
    decreases |keys|
  {
    hide Leaves;
    if keys != {} {
      var k :| k in keys && LeavesUnder(v, keys) == Leaves(v.m[k]) + LeavesUnder(v, keys - {k});
      UnderBound(v, keys - {k}, b);
      OneMore(|keys - {k}|, b);
      hide LeavesUnder;
    }
  }

  lemma {:induction false} InBound(v: Value, n: nat, b: nat)
    requires v.List? && n <= |v.items|
    requires forall i :: 0 <= i < n ==> Leaves(v.items[i]) <= b
    ensures LeavesIn(v, n) <= n * b
  {
    hide Leaves;
    if n > 0 {
      InBound(v, n - 1, b);
      assert n * b == (n - 1) * b + b;
    }
  }

  lemma Times(n: nat, m: nat, b: nat)
    requires n <= m
    ensures n * b <= m * b
  {
  }

  lemma {:induction false} BoundedLeaves(v: Value, room: nat)
    requires Bounded(v, room)
    ensures Leaves(v) <= LeafBound(room)
    decreases v
  {
    hide GivesAway;
    AtLeastAList(room);
    match v
    case Object(m) =>
      forall k | k in m ensures Leaves(m[k]) <= LeafBound(room - 1) {
        BoundedLeaves(m[k], room - 1);
      }
      UnderBound(v, m.Keys, LeafBound(room - 1));
      Times(|m.Keys|, MAX_KEYS, LeafBound(room - 1));
    case List(items) =>
      var b := if room == 0 then 1 else LeafBound(room - 1);
      forall i | 0 <= i < |items| ensures Leaves(items[i]) <= b {
        if room > 0 {
          BoundedLeaves(items[i], room - 1);
        }
      }
      InBound(v, |items|, b);
      Times(|items|, if room == 0 then MAX_LIST else MAX_KEYS, b);
    case _ =>
  }

  lemma {:induction false} AtLeastAList(room: nat)
    ensures LeafBound(room) >= MAX_LIST
  {
    if room > 0 {
      AtLeastAList(room - 1);
    }
  }

  /** Whatever the evidence, the copy that is sent is bounded and holds no secret key, and at most
      24 * 24 * 24 * 12 scalars. */
  lemma SentEvidenceIsBounded(m: map<string, Value>)
    ensures var s := Object(SanitiseMap(m, 1)); Bounded(s, MAX_DEPTH) && Leaves(s) <= 165888
  {
    hide Sanitise, Bounded, Leaves;
    SanitisedIsBounded(Object(m), 0);
    BoundedLeaves(Object(SanitiseMap(m, 1)), MAX_DEPTH);
    assert LeafBound(0) == 12 && LeafBound(1) == 288 && LeafBound(2) == 6912;
  }

  // ----- sanitising twice -----

  /** A Go list of texts is visited where no list may stand any more. */
  predicate TextsTooDeep(v: Value, depth: nat) {
    match v
    case Object(m) => depth < MAX_DEPTH && exists k :: k in Kept(m.Keys) && TextsTooDeep(m[k], depth + 1)
    case List(items) => depth < MAX_DEPTH && exists i :: 0 <= i < |Few(items)| && TextsTooDeep(items[i], depth + 1)
    case Strings(_) => depth >= MAX_DEPTH
    case Other(Some(j)) => TextsTooDeep(j, depth)
    case _ => false
  }

  lemma AllKeptAgain(keys: set<string>)
    ensures Kept(Kept(keys)) == Kept(keys)
  {
    hide IsSecret, StrLeq;
    KeptAreFew(keys);
    var s := Kept(keys);
    assert OpenKeys(s) == s;
    forall k | k in s ensures |Before(s, k)| < MAX_KEYS {
      assert Before(s, k) + {k} <= s;
      SubsetSize(Before(s, k) + {k}, s);
    }
  }

  lemma TruncateTwice(s: string, n: nat)
    ensures TruncateRunes(TruncateRunes(s, n), n) == TruncateRunes(s, n)
  {
    if |s| > n {
      assert (s[..n] + "…")[..n] == s[..n];
    }
  }

  /** Sanitising again changes nothing exactly when no list of texts was visited at the deepest level. */
  lemma {:induction false} IdempotentExactlyWhen(v: Value, depth: nat)
    requires depth <= MAX_DEPTH
    ensures Sanitise(Sanitise(v, depth), depth) == Sanitise(v, depth) <==> !TextsTooDeep(v, depth)
  {
    hide Kept, TruncateRunes;
    var s := Sanitise(v, depth);
    match v
    case Str(t) =>
      TruncateTwice(t, MAX_STRING);
    case Object(m) =>
      if depth == MAX_DEPTH {
        MarkersAreShort();
      } else {
        AllKeptAgain(m.Keys);
        assert s.m.Keys == Kept(m.Keys);
        var r := Sanitise(s, depth).m;
        assert r.Keys == s.m.Keys;
        forall k | k in Kept(m.Keys) ensures r[k] == s.m[k] <==> !TextsTooDeep(m[k], depth + 1) {
          IdempotentExactlyWhen(m[k], depth + 1);
        }
        assert r == s.m <==> forall k :: k in s.m ==> r[k] == s.m[k];
      }
    case List(items) =>
      if depth == MAX_DEPTH {
        MarkersAreShort();
      } else {
        var r := Sanitise(s, depth).items;
        forall i | 0 <= i < |s.items| ensures r[i] == s.items[i] <==> !TextsTooDeep(items[i], depth + 1) {
          IdempotentExactlyWhen(items[i], depth + 1);
        }
        assert r == s.items <==> forall i :: 0 <= i < |s.items| ==> r[i] == s.items[i];
      }
    case Strings(texts) =>
      if depth < MAX_DEPTH {
        forall i | 0 <= i < |Few(texts)| ensures Sanitise(s.items[i], depth + 1) == s.items[i] {
          TruncateTwice(texts[i], MAX_STRING);
        }
        assert Sanitise(s, depth).items == s.items;
      }
    case Other(Some(j)) =>
      IdempotentExactlyWhen(j, depth);
    case Other(None) =>
      MarkersAreShort();
    case _ =>
  }

  lemma MarkersAreShort()
    ensures TruncateRunes(TOO_DEEP, MAX_STRING) == TOO_DEEP && TruncateRunes(NOT_SERIALISABLE, MAX_STRING) == NOT_SERIALISABLE
  {
  }

  predicate JsonShaped(v: Value) {
    match v
    case Object(m) => forall k :: k in m ==> JsonShaped(m[k])
    case List(items) => forall i :: 0 <= i < |items| ==> JsonShaped(items[i])
    case Strings(_) => false
    case Other(_) => false
    case _ => true
  }

  lemma {:induction false} JsonHasNoTexts(v: Value, depth: nat)
    requires JsonShaped(v)
    ensures !TextsTooDeep(v, depth)
  {
    hide Kept;
    match v
    case Object(m) =>
      forall k | k in Kept(m.Keys) ensures !TextsTooDeep(m[k], depth + 1) {
        JsonHasNoTexts(m[k], depth + 1);
      }
    case List(items) =>
      forall i | 0 <= i < |Few(items)| ensures !TextsTooDeep(items[i], depth + 1) {
        JsonHasNoTexts(items[i], depth + 1);
      }
    case _ =>
  }

  /** On JSON evidence the sanitiser is idempotent. */
  lemma IdempotentOnJson(m: map<string, Value>)
    requires JsonShaped(Object(m))
    ensures SanitiseMap(SanitiseMap(m, 1), 1) == SanitiseMap(m, 1)
  {
    hide Sanitise, JsonShaped;
    JsonHasNoTexts(Object(m), 0);
    IdempotentExactlyWhen(Object(m), 0);
  }

  // ----- the loops -----

  lemma SortedPosition(ks: seq<string>, keys: set<string>, i: nat)
    requires Sorted(StrLeq, ks) && NoDuplicates(ks) && i < |ks|
    requires forall k :: k in ks <==> k in keys
    ensures |Before(keys, ks[i])| == i
  {
    hide StrLeq;
    StrOrder();
    var b := Before(keys, ks[i]);
    assert forall j :: i < j < |ks| ==> StrLeq(ks[i], ks[j]) && ks[i] != ks[j];
    forall k ensures k in b <==> k in ks[..i] {
      if k in b {
        var j :| 0 <= j < |ks| && ks[j] == k;
        assert j < i;
      }
      if k in ks[..i] {
        var j :| 0 <= j < i && ks[j] == k;
        assert StrLeq(ks[j], ks[i]) && ks[j] != ks[i];
      }
    }
    assert b == set k | k in ks[..i];
    NoDuplicatesSize(ks[..i]);
  }

  /** Sorting the open keys and cutting the list is what `Kept` describes. */
  lemma CutIsKept(ks: seq<string>, keys: set<string>)
    requires Sorted(StrLeq, ks) && NoDuplicates(ks)
    requires forall k :: k in ks <==> k in OpenKeys(keys)
    ensures forall k :: k in (if |ks| > MAX_KEYS then ks[..MAX_KEYS] else ks) <==> k in Kept(keys)
  {
    hide StrLeq, IsSecret;
    var cut := if |ks| > MAX_KEYS then ks[..MAX_KEYS] else ks;
    forall k ensures k in cut <==> k in Kept(keys) {
      if k in ks {
        var i :| 0 <= i < |ks| && ks[i] == k;
        SortedPosition(ks, OpenKeys(keys), i);
        assert k in Kept(keys) <==> i < MAX_KEYS;
        assert i < |cut| ==> cut[i] == k;
        if k in cut {
          var j :| 0 <= j < |cut| && cut[j] == k;
          assert i == j;
        }
      }
    }
  }

  method SelectKeys(m: map<string, Value>) returns (keys: seq<string>)
    ensures forall k :: k in keys <==> k in Kept(m.Keys)
    ensures forall k :: k in keys <==> k in m && !GivesAway(k) && |Earlier(m, k)| < 24
  {
    hide IsSecret, StrLeq, Kept, GivesAway, Earlier;
    keys := [];
    var rest := m.Keys;
    while rest != {}
      invariant rest <= m.Keys && NoDuplicates(keys)
      invariant forall k :: k in keys <==> k in OpenKeys(m.Keys) && k !in rest
      decreases |rest|
    {
      var k :| k in rest;
      rest := rest - {k};
      if IsSecret(k) {
        continue;
      }
      keys := keys + [k];
    }
    ghost var unsorted := keys;
    keys := SortStrings(keys);
    NoDuplicatesPermutes(unsorted, keys);
    StrOrder();
    SortBySorted(StrLeq, unsorted);
    CutIsKept(keys, m.Keys);
    if |keys| > MAX_KEYS {
      keys := keys[..MAX_KEYS];
    }
    forall k ensures k in Kept(m.Keys) <==> k in m && !GivesAway(k) && |Earlier(m, k)| < 24 {
      KeptMeans(m, k);
    }
  }

  method SanitiseMapLoop(v: Value, depth: nat) returns (out: map<string, Value>)
    requires v.Object?
    ensures out == SanitiseMap(v.m, depth)
    decreases v, 1
  {
    hide Kept, Sanitise;
    out := map[];
    var keys := SelectKeys(v.m);
    for i := 0 to |keys|
      invariant forall k :: k in out <==> k in keys[..i]
      invariant forall k :: k in out ==> k in v.m && out[k] == Sanitise(v.m[k], depth)
    {
      TakeNext(keys, i);
      assert keys[i] in keys;
      var s := SanitiseValue(v.m[keys[i]], depth);
      out := out[keys[i] := s];
    }
    assert keys[..|keys|] == keys;
    assert out.Keys == Kept(v.m.Keys);
  }

  method SanitiseValue(v: Value, depth: nat) returns (out: Value)
    ensures out == Sanitise(v, depth)
    decreases v, 2
  {
    hide Kept, TruncateRunes;
    match v
    case Str(s) =>
      out := Str(TruncateRunes(s, MAX_STRING));
    case Object(m) =>
      if depth >= MAX_DEPTH {
        out := Str(TOO_DEEP);
      } else {
        var r := SanitiseMapLoop(v, depth + 1);
        out := Object(r);
      }
    case List(items) =>
      if depth >= MAX_DEPTH {
        return Str(TOO_DEEP);
      }
      var n := if |items| > MAX_LIST then MAX_LIST else |items|;
      var list: seq<Value> := [];
      for i := 0 to n
        invariant |list| == i && forall j :: 0 <= j < i ==> list[j] == Sanitise(items[j], depth + 1)
      {
        var s := SanitiseValue(items[i], depth + 1);
        list := list + [s];
      }
      out := List(list);
    case Strings(texts) =>
      var n := if |texts| > MAX_LIST then MAX_LIST else |texts|;
      var list: seq<Value> := [];
      for i := 0 to n
        invariant |list| == i && forall j :: 0 <= j < i ==> list[j] == Str(TruncateRunes(texts[j], MAX_STRING))
      {
        list := list + [Str(TruncateRunes(texts[i], MAX_STRING))];
      }
      out := List(list);
    case Other(Some(j)) =>
      out := SanitiseValue(j, depth);
    case Other(None) =>
      out := Str(NOT_SERIALISABLE);
    case _ =>
      out := v;
  }
}
