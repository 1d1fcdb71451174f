/** internal/adapters/network.go: what cleaning a header value comes to. Three laws say it whole: text without blanks and
    control characters stays, a control character that is no line break or tab drops out, and any other white space
    separates what stands on its sides by one blank. */
module HeaderMeaning {
  import opened Text
  import opened Ordering
  import opened Headers

  predicate Solid(c: char) { !IsSpace(c) && ' ' < c && c != '\U{7F}' }

  predicate Breaks(c: char) { c == '\n' || c == '\t' || c == '\r' || (IsSpace(c) && ' ' <= c) }

  lemma {:induction false} StripConcat(a: string, b: string)
    ensures Strip(a + b) == Strip(a) + Strip(b)
  {
    if b == "" {
      assert a + b == a;
    } else {
      var n := |b| - 1;
      SplitLast(b);
      assert a + b == (a + b[..n]) + [b[n]];
      StripConcat(a, b[..n]);
      assert (a + b)[..|a + b| - 1] == a + b[..n];
      ConcatAssociative(Strip(a), Strip(b[..n]), Shown(b[n]));
    }
  }

  lemma StripOne(c: char)
    ensures Strip([c]) == Shown(c)
  {
    assert [c][..0] == "";
  }

  lemma WordsBlank(y: string, c: char)
    requires IsSpace(c)
    ensures Words([c] + y) == Words(y)
  {
    assert ([c] + y)[1..] == y;
  }

  lemma {:induction false} WordLengthIs(s: string, n: nat)
    requires n <= |s| && (forall i :: 0 <= i < n ==> !IsSpace(s[i])) && (n < |s| ==> IsSpace(s[n]))
    ensures WordLength(s) == n
  {
    hide IsSpace;
  }

  lemma {:induction false} WordsAround(x: string, c: char, y: string)
    requires IsSpace(c)
    ensures Words(x + [c] + y) == Words(x) + Words(y)
  {
    hide IsSpace;
    var s := x + [c] + y;
    if x == "" {
      assert s == [c] + y;
      WordsBlank(y, c);
    } else if IsSpace(x[0]) {
      assert s[1..] == x[1..] + [c] + y;
      WordsAround(x[1..], c, y);
    } else {
      var n := WordLength(x);
      WordLengthIs(s, n);
      assert s[..n] == x[..n] && s[n..] == x[n..] + [c] + y;
      WordsAround(x[n..], c, y);
      ConcatAssociative([x[..n]], Words(x[n..]), Words(y));
    }
  }

  lemma OneWord(s: string)
    requires s != "" && forall c :: c in s ==> !IsSpace(c)
    ensures Words(s) == [s]
  {
    hide IsSpace;
    forall i | 0 <= i < |s| ensures !IsSpace(s[i]) {
      assert s[i] in s;
    }
    WordLengthIs(s, |s|);
    assert s[..|s|] == s && s[|s|..] == "";
    assert s[0] in s;
    assert Words("") == [];
  }

  /** Text without white space and control characters stays as it is. */
  lemma SolidStays(s: string)
    requires forall c :: c in s ==> Solid(c)
    ensures Sanitise(s) == s
  {
    hide IsSpace, Words, Strip;
    StripOfPrintable(s);
    if s != "" {
      OneWord(s);
    } else {
      assert Words("") == [] by { NoWords(); }
    }
  }

  lemma NoWords()
    ensures Words("") == []
  {
  }

  /** A control character other than a line break or a tab drops out. */
  lemma ControlsDrop(a: string, c: char, b: string)
    requires (c < ' ' || c == '\U{7F}') && c != '\n' && c != '\t' && c != '\r'
    ensures Sanitise(a + [c] + b) == Sanitise(a + b)
  {
    hide Words, Strip, Join;
    StripConcat(a + [c], b);
    StripConcat(a, [c]);
    StripConcat(a, b);
    StripOne(c);
    assert Strip(a + [c]) == Strip(a) + "" == Strip(a);
    assert Strip(a + [c] + b) == Strip(a + b);
  }

  /** White space leaves one blank between the texts on its sides, and none where there is no text. */
  lemma BreaksSeparate(a: string, c: char, b: string)
    requires Breaks(c)
    ensures var x, y := Sanitise(a), Sanitise(b);
            Sanitise(a + [c] + b) == if x == "" then y else if y == "" then x else x + " " + y
  {
    hide Words, Strip, Join, IsSpace;
    StripConcat(a + [c], b);
    StripConcat(a, [c]);
    StripOne(c);
    var d := ShownBreak(c);
    assert Strip(a + [c] + b) == Strip(a) + [d] + Strip(b);
    WordsAround(Strip(a), d, Strip(b));
    var v, w := Words(Strip(a)), Words(Strip(b));
    JoinedEmpty(v);
    JoinedEmpty(w);
    JoinBoth(v, w);
    assert Sanitise(a + [c] + b) == Join(v + w, ' ');
  }

  lemma JoinBoth(v: seq<string>, w: seq<string>)
    ensures Join(v + w, ' ') == if v == [] then Join(w, ' ') else if w == [] then Join(v, ' ') else Join(v, ' ') + " " + Join(w, ' ')
  {
    hide Join;
    if v == [] {
      assert v + w == w;
    } else if w == [] {
      assert v + w == v;
    } else {
      JoinAround(v, w, ' ');
    }
  }

  lemma ShownBreak(c: char) returns (d: char)
    requires Breaks(c)
    ensures Shown(c) == [d] && IsSpace(d)
  {
    d := if c == '\n' || c == '\t' || c == '\r' then ' ' else c;
  }

  lemma JoinedEmpty(ws: seq<string>)
    requires forall w :: w in ws ==> w != ""
    ensures Join(ws, ' ') == "" <==> ws == []
  {
    if ws != [] {
      assert ws[0] in ws;
    }
  }

  // ----- the lines of a block -----

  /** A line with a name adds its trimmed value under the trimmed name in lower case, behind what is there; a line
      without one adds nothing. */
  lemma LineAdds(m: HeaderMap, name: string, value: string)
    requires ':' !in name
    ensures var q, v := Lower(TrimSpace(name)), TrimSpace(value);
            && AddLine(m, name) == m
            && AddLine(m, name + ":" + value)
               == if name == "" then m else if q in m then m[q := m[q] + "\0" + v] else m[q := v]
  {
    hide TrimSpace, Lower;
    FirstColon(name, value);
    FirstAmong(name, "", ":");
    assert name + "" == name;
    var line := name + ":" + value;
    assert line[..|name|] == name && line[|name| + 1..] == value;
  }

  /** The printed block, one line for each value: the names in byte order, their values as they stand. */
  lemma {:induction false} LinesMean(h: Header, keys: seq<string>, line: string)
    requires KeyOrder(h, keys)
    ensures line in LinesOf(h, keys) <==> exists k, i :: k in h && 0 <= i < |h[k]| && line == k + ": " + Sanitise(h[k][i])
  {
    hide Sanitise, Sorted;
    LinesAmong(h, keys, line);
  }

  lemma {:induction false} LinesAmong(h: Header, keys: seq<string>, line: string)
    requires forall k :: k in keys ==> k in h
    ensures line in LinesOf(h, keys) <==>
            exists k, i :: k in keys && k in h && 0 <= i < |h[k]| && line == k + ": " + Sanitise(h[k][i])
  {
    hide Sanitise;
    if keys != [] {
      var n := |keys| - 1;
      SplitLast(keys);
      LinesAmong(h, keys[..n], line);
      var k := keys[n];
      assert line in LinesOfKey(k, h[k]) <==> exists i :: 0 <= i < |h[k]| && line == k + ": " + Sanitise(h[k][i]);
    }
  }
}
