/** The string operations of the Go standard library that the modelled code calls, on sequences of
    characters. Case folding covers the ASCII letters. */
module Text {

  const NUL := '\0'

  // ----- byte-wise order (Go's `<` on strings) -----

  predicate StrLeq(a: string, b: string) {
    a == "" || (b != "" && (a[0] < b[0] || (a[0] == b[0] && StrLeq(a[1..], b[1..]))))
  }

  lemma StrTotal(a: string, b: string)
    ensures StrLeq(a, b) || StrLeq(b, a)
  {
  }

  lemma StrTransitive(a: string, b: string, c: string)
    requires StrLeq(a, b) && StrLeq(b, c)
    ensures StrLeq(a, c)
  {
  }

  lemma StrAntisymmetric(a: string, b: string)
    requires StrLeq(a, b) && StrLeq(b, a)
    ensures a == b
  {
    if a != "" && b != "" {
      StrAntisymmetric(a[1..], b[1..]);
    }
  }

  lemma StrOrder()
    ensures forall a, b :: StrLeq(a, b) || StrLeq(b, a)
    ensures forall a, b, c :: StrLeq(a, b) && StrLeq(b, c) ==> StrLeq(a, c)
    ensures forall a, b :: StrLeq(a, b) && StrLeq(b, a) ==> a == b
  {
    forall a, b ensures StrLeq(a, b) || StrLeq(b, a) { StrTotal(a, b); }
    forall a, b, c | StrLeq(a, b) && StrLeq(b, c) ensures StrLeq(a, c) { StrTransitive(a, b, c); }
    forall a, b | StrLeq(a, b) && StrLeq(b, a) ensures a == b { StrAntisymmetric(a, b); }
  }

  /** `a` comes first exactly when it is a beginning of `b`, or smaller at the first character they differ in. */
  lemma {:induction false} StrLeqMeans(a: string, b: string)
    ensures StrLeq(a, b) <==> a <= b || exists k :: 0 <= k < |a| && k < |b| && a[..k] == b[..k] && a[k] < b[k]
  {
    if a != "" && b != "" {
      if a[0] < b[0] {
        assert a[..0] == b[..0];
      } else if a[0] == b[0] {
        StrLeqMeans(a[1..], b[1..]);
        assert a == [a[0]] + a[1..] && b == [b[0]] + b[1..];
        if k :| 0 <= k < |a[1..]| && k < |b[1..]| && a[1..][..k] == b[1..][..k] && a[1..][k] < b[1..][k] {
          assert a[..k + 1] == [a[0]] + a[1..][..k] && b[..k + 1] == [b[0]] + b[1..][..k];
          assert a[k + 1] < b[k + 1];
        }
        if k :| 0 <= k < |a| && k < |b| && a[..k] == b[..k] && a[k] < b[k] {
          assert k > 0 && a[1..][..k - 1] == a[..k][1..] && b[1..][..k - 1] == b[..k][1..];
          assert a[1..][k - 1] < b[1..][k - 1];
        }
      } else if k :| 0 <= k < |a| && k < |b| && a[..k] == b[..k] && a[k] < b[k] {
        assert k == 0 || a[..k][0] == b[..k][0];
      }
    }
  }

  // ----- case and white space -----

  function LowerChar(c: char): char {
    if 'A' <= c <= 'Z' then (c as int + 32) as char else c
  }

  function Lower(s: string): (r: string)
    ensures |r| == |s|
    ensures forall i :: 0 <= i < |s| ==> r[i] == LowerChar(s[i])
  {
    seq(|s|, i requires 0 <= i < |s| => LowerChar(s[i]))
  }

  /** Go's unicode.IsSpace. */
  predicate IsSpace(c: char) {
    || c == ' ' || '\t' <= c <= '\r' || c == '\U{85}' || c == '\U{A0}' || c == '\U{1680}'
    || '\U{2000}' <= c <= '\U{200A}' || c == '\U{2028}' || c == '\U{2029}'
    || c == '\U{202F}' || c == '\U{205F}' || c == '\U{3000}'
  }

  predicate Trimmed(s: string) {
    s == "" || (!IsSpace(s[0]) && !IsSpace(s[|s| - 1]))
  }

  function TrimLeft(s: string): (r: string)
    ensures |r| <= |s| && r == s[|s| - |r|..]
    ensures r == "" || !IsSpace(r[0])
  {
    if s != "" && IsSpace(s[0]) then TrimLeft(s[1..]) else s
  }

  function TrimRight(s: string): (r: string)
    ensures r <= s
    ensures r == "" || !IsSpace(r[|r| - 1])
  {
    if s != "" && IsSpace(s[|s| - 1]) then TrimRight(s[..|s| - 1]) else s
  }

  function TrimSpace(s: string): (r: string)
    ensures Trimmed(r)
    ensures Trimmed(s) ==> r == s
    ensures forall c :: c in r ==> c in s
  {
    TrimRight(TrimLeft(s))
  }

  /** Leading white space is dropped whatever follows it. */
  lemma TrimLeadingSpace(s: string, c: char)
    requires IsSpace(c)
    ensures TrimSpace([c] + s) == TrimSpace(s)
  {
    assert ([c] + s)[1..] == s;
  }

  /** Trimming and lower-casing: the canonical spelling of an operator-supplied entry. */
  function Clean(s: string): string {
    TrimSpace(Lower(s))
  }

  lemma CleanIdempotent(s: string)
    ensures Clean(Clean(s)) == Clean(s)
  {
    hide TrimSpace;
    var t := Clean(s);
    forall i | 0 <= i < |t| ensures LowerChar(t[i]) == t[i] {
      assert t[i] in Lower(s);
    }
    assert Lower(t) == t;
  }

  predicate HasSuffix(s: string, suffix: string) {
    |suffix| <= |s| && s[|s| - |suffix|..] == suffix
  }

  predicate HasPrefix(s: string, prefix: string) {
    prefix <= s
  }

  predicate Contains(s: string, part: string) {
    HasPrefix(s, part) || (s != "" && Contains(s[1..], part))
  }

  predicate StandsAt(s: string, part: string, i: nat) {
    i + |part| <= |s| && s[i..i + |part|] == part
  }

  /** The part stands somewhere in the text. */
  lemma {:induction false} ContainsMeans(s: string, part: string)
    ensures Contains(s, part) <==> exists i: nat :: StandsAt(s, part, i)
  {
    assert HasPrefix(s, part) <==> StandsAt(s, part, 0);
    if !HasPrefix(s, part) && s != "" {
      ContainsMeans(s[1..], part);
      if i: nat :| StandsAt(s[1..], part, i) {
        assert s[i + 1..i + 1 + |part|] == s[1..][i..i + |part|];
        assert StandsAt(s, part, i + 1);
      }
      if i: nat :| StandsAt(s, part, i) {
        assert i > 0;
        assert s[1..][i - 1..i - 1 + |part|] == s[i..i + |part|];
        assert StandsAt(s[1..], part, i - 1);
      }
    }
  }

  /** What is trimmed is white space, all of it, on both ends. */
  lemma TrimSpaceMeans(s: string)
    ensures exists i, j :: 0 <= i <= j <= |s| && TrimSpace(s) == s[i..j]
                           && (forall k :: 0 <= k < i || j <= k < |s| ==> IsSpace(s[k]))
  {
    hide IsSpace, TrimLeft, TrimRight;
    TrimLeftMeans(s);
    var l := TrimLeft(s);
    TrimRightMeans(l);
    var i := |s| - |l|;
    var j := i + |TrimSpace(s)|;
    forall k | 0 <= k < i || j <= k < |s| ensures IsSpace(s[k]) {
      if k >= j { assert s[k] == l[k - i]; }
    }
    assert TrimSpace(s) == s[i..j];
  }

  lemma {:induction false} TrimLeftMeans(s: string)
    ensures forall k :: 0 <= k < |s| - |TrimLeft(s)| ==> IsSpace(s[k])
  {
    hide IsSpace;
    if s != "" && IsSpace(s[0]) {
      TrimLeftMeans(s[1..]);
    }
  }

  lemma {:induction false} TrimRightMeans(s: string)
    ensures forall k :: |TrimRight(s)| <= k < |s| ==> IsSpace(s[k])
  {
    hide IsSpace;
    if s != "" && IsSpace(s[|s| - 1]) {
      TrimRightMeans(s[..|s| - 1]);
    }
  }

  // ----- host names -----

  function IndexOfPart(s: string, part: string): (i: nat)
    ensures i <= |s|
    ensures i < |s| ==> HasPrefix(s[i..], part)
  {
    if s == "" || HasPrefix(s, part) then 0 else 1 + IndexOfPart(s[1..], part)
  }

  function IndexOfAny(s: string, cs: string): (i: nat)
    ensures i <= |s|
  {
    if s == "" || s[0] in cs then 0 else 1 + IndexOfAny(s[1..], cs)
  }

  /** The first place the part stands at, or the length of the text when it stands nowhere. */
  lemma {:induction false} IndexOfPartMeans(s: string, part: string)
    requires part != ""
    ensures forall k: nat :: k < IndexOfPart(s, part) ==> !StandsAt(s, part, k)
    ensures IndexOfPart(s, part) < |s| ==> StandsAt(s, part, IndexOfPart(s, part))
    ensures IndexOfPart(s, part) == |s| ==> forall k: nat :: !StandsAt(s, part, k)
  {
    hide StandsAt;
    if s == "" {
      assert forall k: nat :: !StandsAt(s, part, k) by { NothingStands(part); }
    } else if HasPrefix(s, part) {
      assert StandsAt(s, part, 0) by { PrefixStands(s, part); }
    } else {
      IndexOfPartMeans(s[1..], part);
      var i := IndexOfPart(s[1..], part);
      forall k: nat ensures StandsAt(s, part, k) <==> k > 0 && StandsAt(s[1..], part, k - 1) {
        StandsInRest(s, part, k);
      }
      assert IndexOfPart(s, part) == i + 1;
    }
  }

  lemma NothingStands(part: string)
    requires part != ""
    ensures forall k: nat :: !StandsAt("", part, k)
  {
  }

  lemma PrefixStands(s: string, part: string)
    requires HasPrefix(s, part)
    ensures StandsAt(s, part, 0)
  {
  }

  lemma StandsInRest(s: string, part: string, k: nat)
    requires s != "" && !HasPrefix(s, part)
    ensures StandsAt(s, part, k) <==> k > 0 && StandsAt(s[1..], part, k - 1)
  {
    assert HasPrefix(s, part) <==> StandsAt(s, part, 0);
    if 0 < k && k + |part| <= |s| {
      assert s[1..][k - 1..k - 1 + |part|] == s[k..k + |part|];
    }
  }

  lemma {:induction false} IndexOfAnyMeans(s: string, cs: string)
    ensures var i := IndexOfAny(s, cs);
            && (forall k :: 0 <= k < i ==> s[k] !in cs)
            && (i < |s| ==> s[i] in cs)
  {
    if s != "" && s[0] !in cs {
      IndexOfAnyMeans(s[1..], cs);
      var i := IndexOfAny(s[1..], cs);
      forall k | 0 <= k < i + 1 ensures s[k] !in cs {
        assert k > 0 ==> s[k] == s[1..][k - 1];
      }
    }
  }

  function TrimDot(s: string): string {
    if HasSuffix(s, ".") then s[..|s| - 1] else s
  }

  // ----- the parts of a URL -----

  /** A text without upper-case letters and without white space at either end. */
  predicate Tidy(s: string) {
    && (forall c :: c in s ==> !('A' <= c <= 'Z'))
    && (s == "" || (!IsSpace(s[0]) && !IsSpace(s[|s| - 1])))
  }

  lemma TidyIsClean(s: string)
    requires Tidy(s)
    ensures Clean(s) == s
  {
    hide IsSpace;
    forall i | 0 <= i < |s| ensures LowerChar(s[i]) == s[i] {
      assert s[i] in s;
    }
    assert Lower(s) == s;
    assert Trimmed(s);
  }

  lemma {:induction false} NoScheme(t: string)
    requires ':' !in t
    ensures IndexOfPart(t, "://") == |t|
  {
    if t != "" {
      assert forall c :: c in t[1..] ==> c in t;
      assert "://"[0] == ':' && t[0] in t;
      NoScheme(t[1..]);
    }
  }

  /** What stands behind the host of a URL. */
  predicate Tail(rest: string) {
    rest == "" || rest[0] == '/' || rest[0] == '?' || rest[0] == '#'
  }

  lemma FirstScheme(scheme: string, after: string)
    requires ':' !in scheme
    ensures var t := scheme + "://" + after;
            IndexOfPart(t, "://") == |scheme| && t[|scheme| + 3..] == after
  {
    var t := scheme + "://" + after;
    IndexOfPartMeans(t, "://");
    assert StandsAt(t, "://", |scheme|);
    var i := IndexOfPart(t, "://");
    if i < |scheme| {
      ColonAt(t, i);
      assert false;
    }
  }

  lemma ColonAt(t: string, i: nat)
    requires StandsAt(t, "://", i)
    ensures t[i] == ':'
  {
    assert t[i..i + 3][0] == ':';
  }

  lemma FirstAmong(a: string, b: string, cs: string)
    requires (forall c :: c in a ==> c !in cs) && (b == "" || b[0] in cs)
    ensures IndexOfAny(a + b, cs) == |a|
  {
    IndexOfAnyMeans(a + b, cs);
    hide IndexOfAny;
    var s := a + b;
    forall k | 0 <= k < |a| ensures s[k] !in cs {
      assert s[k] == a[k] && a[k] in a;
    }
    assert b != "" ==> s[|a|] == b[0];
  }

  lemma NoTrailingDot(s: string)
    requires s != "" && s[|s| - 1] != '.'
    ensures TrimDot(s) == s && s[..|s|] == s && TrimDot(s + ".") == s
  {
    assert s[|s| - 1..][0] == s[|s| - 1];
    assert (s + ".")[|s|..] == ".";
  }

  lemma CutAtColon(h: string, port: string)
    ensures var s := h + ":" + port;
            s == h + (":" + port) && s[..|h|] == h && s[|h| + 1..] == port
  {
  }

  // ----- domains -----

  /** The host is the key or a sub-domain of it. */
  predicate Under(host: string, key: string) {
    host == key || HasSuffix(host, "." + key)
  }

  // ----- Split and Join -----

  function Join(parts: seq<string>, sep: char): string {
    if parts == [] then ""
    else if |parts| == 1 then parts[0]
    else parts[0] + [sep] + Join(parts[1..], sep)
  }

  function Split(s: string, sep: char): (r: seq<string>)
    ensures |r| >= 1
    ensures forall p :: p in r ==> sep !in p
  {
    if s == "" then [""]
    else
      var r := Split(s[1..], sep);
      if s[0] == sep then [""] + r else [[s[0]] + r[0]] + r[1..]
  }

  lemma {:induction false} JoinSplit(s: string, sep: char)
    ensures Join(Split(s, sep), sep) == s
  {
    if s != "" {
      var r := Split(s[1..], sep);
      JoinSplit(s[1..], sep);
      if s[0] == sep {
        assert ([""] + r)[1..] == r;
      } else {
        var q := [[s[0]] + r[0]] + r[1..];
        assert q[1..] == r[1..];
        assert s == [s[0]] + s[1..];
        if |r| > 1 {
          assert [s[0]] + r[0] + [sep] + Join(r[1..], sep) == [s[0]] + (r[0] + [sep] + Join(r[1..], sep));
        }
      }
    }
  }

  lemma {:induction false} SplitOne(p: string, sep: char)
    requires sep !in p
    ensures Split(p, sep) == [p]
  {
    if p != "" {
      assert forall c :: c in p[1..] ==> c in p;
      SplitOne(p[1..], sep);
      assert [p[0]] + p[1..] == p;
    }
  }

  lemma {:induction false} SplitFirst(p: string, rest: string, sep: char)
    requires sep !in p
    ensures Split(p + [sep] + rest, sep) == [p] + Split(rest, sep)
  {
    var s := p + [sep] + rest;
    if p == "" {
      assert s[1..] == rest;
    } else {
      assert forall c :: c in p[1..] ==> c in p;
      assert s[1..] == p[1..] + [sep] + rest;
      SplitFirst(p[1..], rest, sep);
      assert [p[0]] + p[1..] == p;
    }
  }

  /** Splitting a joined list gives the list back exactly when it is not empty and no entry holds
      the separator. */
  lemma {:induction false} SplitJoin(parts: seq<string>, sep: char)
    ensures Split(Join(parts, sep), sep) == parts <==> parts != [] && forall p :: p in parts ==> sep !in p
  {
    if parts != [] && (forall p :: p in parts ==> sep !in p) {
      assert parts[0] in parts;
      if |parts| == 1 {
        SplitOne(parts[0], sep);
        assert parts == [parts[0]];
      } else {
        SplitFirst(parts[0], Join(parts[1..], sep), sep);
        SplitJoin(parts[1..], sep);
        assert parts == [parts[0]] + parts[1..];
      }
    }
  }

  lemma {:induction false} JoinAround(a: seq<string>, b: seq<string>, sep: char)
    requires a != [] && b != []
    ensures Join(a + b, sep) == Join(a, sep) + [sep] + Join(b, sep)
  {
    if |a| == 1 {
      assert (a + b)[1..] == b;
    } else {
      JoinAround(a[1..], b, sep);
      assert (a + b)[1..] == a[1..] + b;
      assert a[0] + [sep] + (Join(a[1..], sep) + [sep] + Join(b, sep)) == (a[0] + [sep] + Join(a[1..], sep)) + [sep] + Join(b, sep);
    }
  }

  lemma SplitAround(a: string, b: string, sep: char)
    ensures Split(a + [sep] + b, sep) == Split(a, sep) + Split(b, sep)
  {
    hide Split, Join;
    var x, y := Split(a, sep), Split(b, sep);
    JoinSplit(a, sep);
    JoinSplit(b, sep);
    JoinAround(x, y, sep);
    SplitJoin(x + y, sep);
  }

  /** The dot-separated labels of a name. */
  function Labels(host: string): seq<string> { Split(host, '.') }

  predicate EndsWith(labels: seq<string>, tail: seq<string>) {
    |tail| <= |labels| && labels[|labels| - |tail|..] == tail
  }

  /** A host is the key or a sub-domain of it exactly when its labels end with those of the key: a name that merely
      ends with the same characters is another domain. */
  lemma UnderMeansLabels(host: string, key: string)
    ensures Under(host, key) <==> EndsWith(Labels(host), Labels(key))
  {
    hide Split, Join;
    var lh, lk := Labels(host), Labels(key);
    JoinSplit(host, '.');
    JoinSplit(key, '.');
    if HasSuffix(host, "." + key) {
      var a := host[..|host| - |key| - 1];
      assert host == a + ['.'] + key by { assert host == a + host[|a|..] && host[|a|..] == ['.'] + key; }
      SplitAround(a, key, '.');
    }
    if EndsWith(lh, lk) && |lk| < |lh| {
      var a := lh[..|lh| - |lk|];
      assert lh == a + lk;
      JoinAround(a, lk, '.');
      assert host == Join(a, '.') + ("." + key);
    }
  }

  // ----- decimal numbers -----

  function DigitChar(d: nat): char
    requires d < 10
  {
    ('0' as int + d) as char
  }

  predicate IsDigit(c: char) {
    '0' <= c <= '9'
  }

  function Digits(n: nat): (r: string)
    ensures r != "" && forall c :: c in r ==> IsDigit(c)
  {
    if n < 10 then [DigitChar(n)] else Digits(n / 10) + [DigitChar(n % 10)]
  }

  function Value(s: string): nat
    requires forall c :: c in s ==> IsDigit(c)
  {
    if s == "" then 0
    else
      var n := |s| - 1;
      assert forall c :: c in s[..n] ==> c in s;
      assert s[n] in s && IsDigit(s[n]);
      10 * Value(s[..n]) + (s[n] as int - '0' as int)
  }

  function Itoa(n: int): (r: string)
    ensures r != "" && forall c :: c in r ==> IsDigit(c) || c == '-'
  {
    if n < 0 then "-" + Digits(-n) else Digits(n)
  }

  lemma {:induction false} ValueOfDigits(n: nat)
    ensures Value(Digits(n)) == n
  {
    var r := Digits(n);
    if n < 10 {
      assert r[..0] == "";
    } else {
      ValueOfDigits(n / 10);
      assert r[..|r| - 1] == Digits(n / 10);
    }
  }

  lemma ItoaSign(n: int)
    ensures Itoa(n)[0] == '-' <==> n < 0
  {
    if n >= 0 {
      assert Digits(n)[0] in Digits(n);
    }
  }

  lemma ItoaInjective(a: int, b: int)
    requires Itoa(a) == Itoa(b)
    ensures a == b
  {
    ItoaSign(a);
    ItoaSign(b);
    ValueOfDigits(if a < 0 then -a else a);
    ValueOfDigits(if b < 0 then -b else b);
    if a < 0 {
      assert Itoa(a)[1..] == Digits(-a);
      assert Itoa(b)[1..] == Digits(-b);
    }
  }
}
