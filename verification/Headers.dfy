/** internal/adapters/web.go and network.go: printing captured response headers into evidence and reading them
    back, with the cleaning of values in between. */
module Headers {
  import opened Text
  import opened Ordering
  import opened Findings

  // ----- cleaning a value -----

  /** Line breaks and tabs become blanks, other control characters disappear. */
  function Shown(c: char): string {
    if c == '\n' || c == '\t' || c == '\r' then " "
    else if c < ' ' || c == '\U{7F}' then ""
    else [c]
  }

  function Strip(s: string): string {
    if s == "" then "" else Strip(s[..|s| - 1]) + Shown(s[|s| - 1])
  }

  function WordLength(s: string): (n: nat)
    ensures n <= |s|
    ensures forall i :: 0 <= i < n ==> !IsSpace(s[i])
    ensures n < |s| ==> IsSpace(s[n])
  {
    if s == "" || IsSpace(s[0]) then 0 else 1 + WordLength(s[1..])
  }

  /** The maximal runs without white space. */
  function Words(s: string): (r: seq<string>)
    ensures forall w :: w in r ==> w != "" && (forall c :: c in w ==> !IsSpace(c) && c in s)
  {
    if s == "" then []
    else if IsSpace(s[0]) then Words(s[1..])
    else
      var n := WordLength(s);
      [s[..n]] + Words(s[n..])
  }

  function Sanitise(s: string): string { Join(Words(Strip(s)), ' ') }

  method SanitiseLoop(s: string) returns (r: string)
    ensures r == Sanitise(s)
  {
    var b := "";
    for i := 0 to |s|
      invariant b == Strip(s[..i])
    {
      assert s[..i + 1][..i] == s[..i];
      var c := s[i];
      if c == '\n' || c == '\t' || c == '\r' {
        b := b + [' '];
      } else if c < ' ' || c == '\U{7F}' {
      } else {
        b := b + [c];
      }
    }
    assert s[..|s|] == s;
    r := Join(Words(b), ' ');
  }

  predicate Printable(c: char) { c >= ' ' && c != '\U{7F}' }

  lemma {:induction false} StripPrintable(s: string)
    ensures forall c :: c in Strip(s) ==> Printable(c)
  {
    if s == "" {
      assert Strip(s) == "";
    } else {
      StripPrintable(s[..|s| - 1]);
      assert forall c :: c in Shown(s[|s| - 1]) ==> Printable(c);
      var init, last := Strip(s[..|s| - 1]), Shown(s[|s| - 1]);
      assert Strip(s) == init + last;
      forall c | c in Strip(s) ensures Printable(c) {
        assert c in init || c in last;
      }
    }
  }

  lemma {:induction false} StripOfPrintable(s: string)
    requires forall c :: c in s ==> Printable(c)
    ensures Strip(s) == s
  {
    if s == "" {
      assert Strip(s) == "";
    } else {
      SplitLast(s);
      StripOfPrintable(s[..|s| - 1]);
      var c := s[|s| - 1];
      assert c in s && Printable(c) && Shown(c) == [c];
    }
  }

  predicate Wordy(ws: seq<string>) {
    forall w :: w in ws ==> w != "" && forall c :: c in w ==> !IsSpace(c)
  }

  lemma WordyTail(ws: seq<string>)
    requires Wordy(ws) && ws != []
    ensures Wordy(ws[1..]) && ws[0] != "" && forall c :: c in ws[0] ==> !IsSpace(c)
  {
    hide IsSpace;
    assert ws[0] in ws;
    assert forall w :: w in ws[1..] ==> w in ws;
  }

  lemma JoinCons(ws: seq<string>, sep: char)
    requires |ws| > 1
    ensures Join(ws, sep) == ws[0] + ([sep] + Join(ws[1..], sep))
  {
  }

  lemma {:induction false} JoinEnds(ws: seq<string>)
    requires Wordy(ws) && ws != []
    ensures var j := Join(ws, ' '); j != "" && !IsSpace(j[0]) && !IsSpace(j[|j| - 1])
  {
    hide IsSpace;
    WordyTail(ws);
    if |ws| > 1 {
      JoinEnds(ws[1..]);
      JoinCons(ws, ' ');
    }
  }

  lemma {:induction false} WordsOfJoin(ws: seq<string>)
    requires Wordy(ws)
    ensures Words(Join(ws, ' ')) == ws
  {
    if ws != [] {
      WordyTail(ws);
      assert IsSpace(' ');
      hide IsSpace;
      var rest := if |ws| == 1 then "" else [' '] + Join(ws[1..], ' ');
      if |ws| > 1 {
        JoinCons(ws, ' ');
        WordsOfJoin(ws[1..]);
        assert rest[1..] == Join(ws[1..], ' ');
      }
      assert Join(ws, ' ') == ws[0] + rest;
      WordThen(ws[0], rest);
      assert ws == [ws[0]] + ws[1..];
    }
  }

  lemma {:induction false} WordLengthThen(w: string, rest: string)
    requires (forall c :: c in w ==> !IsSpace(c)) && (rest != "" ==> IsSpace(rest[0]))
    ensures WordLength(w + rest) == |w|
  {
    hide IsSpace;
    if w == "" {
      assert w + rest == rest;
    } else {
      assert w[0] in w && (w + rest)[0] == w[0];
      assert (w + rest)[1..] == w[1..] + rest;
      assert forall c :: c in w[1..] ==> c in w;
      WordLengthThen(w[1..], rest);
    }
  }

  lemma WordThen(w: string, rest: string)
    requires w != "" && (forall c :: c in w ==> !IsSpace(c)) && (rest != "" ==> IsSpace(rest[0]))
    ensures Words(w + rest) == [w] + Words(rest)
  {
    hide IsSpace;
    var s := w + rest;
    WordLengthThen(w, rest);
    assert s[0] == w[0] && w[0] in w;
    assert s[..|w|] == w && s[|w|..] == rest;
  }

  /** A cleaned value is one line of printable text with single blanks between words; cleaning it again changes
      nothing. */
  lemma SanitisedValue(s: string)
    ensures var r := Sanitise(s);
            Trimmed(r) && (forall c :: c in r ==> Printable(c) && (IsSpace(c) ==> c == ' ')) && Sanitise(r) == r
  {
    hide IsSpace, Strip, Words, Join;
    var ws := Words(Strip(s));
    StripPrintable(s);
    if ws != [] {
      JoinEnds(ws);
    } else {
      assert Join(ws, ' ') == "" by { JoinNothing(' '); }
    }
    forall c | c in Sanitise(s) ensures Printable(c) && (IsSpace(c) ==> c == ' ') {
      InJoin(ws, ' ', c);
    }
    StripOfPrintable(Sanitise(s));
    WordsOfJoin(ws);
  }

  lemma JoinNothing(sep: char)
    ensures Join([], sep) == ""
  {
  }

  lemma {:induction false} InJoin(ws: seq<string>, sep: char, c: char)
    requires c in Join(ws, sep)
    ensures c == sep || exists w :: w in ws && c in w
  {
    if |ws| == 1 {
      assert ws[0] in ws;
    } else if |ws| > 1 {
      JoinCons(ws, sep);
      assert ws[0] in ws;
      if c != sep && c !in ws[0] {
        InJoin(ws[1..], sep, c);
        var w :| w in ws[1..] && c in w;
        assert w in ws;
      }
    }
  }

  // ----- printing -----

  type Header = map<string, seq<string>>

  function SanitiseAll(vs: seq<string>): seq<string> { MapSeq(Sanitise, vs) }

  function LineOf(k: string, v: string): string { k + ": " + Sanitise(v) }

  function LinesOfKey(k: string, vs: seq<string>): seq<string> {
    MapSeq((v: string) => LineOf(k, v), vs)
  }

  function LinesOf(h: Header, keys: seq<string>): seq<string>
    requires forall k :: k in keys ==> k in h
  {
    if keys == [] then [] else LinesOf(h, keys[..|keys| - 1]) + LinesOfKey(keys[|keys| - 1], h[keys[|keys| - 1]])
  }

  /** The keys of the header, each once, sorted. */
  ghost predicate KeyOrder(h: Header, keys: seq<string>) {
    Sorted(StrLeq, keys) && NoDuplicates(keys) && forall k :: k in keys <==> k in h
  }

  function Terminated(lines: seq<string>): string {
    if lines == [] then "" else Terminated(lines[..|lines| - 1]) + lines[|lines| - 1] + "\n"
  }

  function TrimNewlines(s: string): string {
    if s != "" && s[|s| - 1] == '\n' then TrimNewlines(s[..|s| - 1]) else s
  }

  lemma TerminatedSnoc(lines: seq<string>, l: string)
    ensures Terminated(lines + [l]) == Terminated(lines) + l + "\n"
  {
    assert (lines + [l])[..|lines|] == lines;
  }

  lemma {:induction false} JoinSnoc(xs: seq<string>, x: string, sep: char)
    ensures Join(xs + [x], sep) == if xs == [] then x else Join(xs, sep) + [sep] + x
  {
    if xs == [] {
      assert [] + [x] == [x];
    } else {
      assert (xs + [x])[0] == xs[0] && (xs + [x])[1..] == xs[1..] + [x];
      JoinSnoc(xs[1..], x, sep);
      if |xs| > 1 {
        JoinCons(xs, sep);
        JoinCons(xs + [x], sep);
        assert Join(xs + [x], sep) == xs[0] + ([sep] + (Join(xs[1..], sep) + [sep] + x));
      }
    }
  }

  /** Dropping the last line break of a block of lines that do not end in one joins them. */
  lemma {:induction false} TrimmedBlock(lines: seq<string>)
    requires forall l :: l in lines ==> l != "" && l[|l| - 1] != '\n'
    ensures TrimNewlines(Terminated(lines)) == Join(lines, '\n')
    ensures lines != [] ==> Terminated(lines) == Join(lines, '\n') + "\n"
  {
    if lines != [] {
      var n := |lines| - 1;
      SplitLast(lines);
      TrimmedBlock(lines[..n]);
      JoinSnoc(lines[..n], lines[n], '\n');
      var t := Terminated(lines);
      assert lines[n] in lines;
      assert t[..|t| - 1] == Join(lines, '\n');
      assert t[|t| - 1] == '\n';
    }
  }

  method SortedKeys(h: Header) returns (keys: seq<string>)
    ensures KeyOrder(h, keys)
  {
    hide StrLeq;
    keys := [];
    var rest := h.Keys;
    while rest != {}
      invariant rest <= h.Keys && NoDuplicates(keys)
      invariant forall k :: k in keys <==> k in h && k !in rest
      decreases |rest|
    {
      var k :| k in rest;
      rest := rest - {k};
      keys := keys + [k];
    }
    ghost var unsorted := keys;
    keys := SortStrings(keys);
    NoDuplicatesPermutes(unsorted, keys);
    StrOrder();
    SortBySorted(StrLeq, unsorted);
  }

  method FormatHeaders(h: Header) returns (r: string, ghost keys: seq<string>)
    ensures KeyOrder(h, keys)
    ensures r == TrimNewlines(Terminated(LinesOf(h, keys)))
  {
    hide LinesOfKey, Terminated, NoDuplicates, Sorted;
    var list := SortedKeys(h);
    keys := list;
    assert forall k :: k in list ==> k in h;
    var b := "";
    assert Terminated([]) == "" by { TerminatedNothing(); }
    for i := 0 to |list|
      invariant b == Terminated(LinesOf(h, list[..i]))
    {
      assert list[..i + 1][..i] == list[..i];
      assert list[i] in list;
      b := PrintKey(b, LinesOf(h, list[..i]), list[i], h[list[i]]);
    }
    assert list[..|list|] == list;
    r := TrimNewlines(b);
  }

  lemma TerminatedNothing()
    ensures Terminated([]) == ""
  {
  }

  method PrintKey(b: string, ghost lines: seq<string>, k: string, vs: seq<string>) returns (r: string)
    requires b == Terminated(lines)
    ensures r == Terminated(lines + LinesOfKey(k, vs))
  {
    hide Sanitise, Terminated;
    r := b;
    ghost var more := LinesOfKey(k, vs);
    assert lines + more[..0] == lines;
    for j := 0 to |vs|
      invariant r == Terminated(lines + more[..j])
    {
      var v := SanitiseLoop(vs[j]);
      r := r + (k + ": " + v) + "\n";
      TakeNext(more, j);
      ConcatAssociative(lines, more[..j], [more[j]]);
      TerminatedSnoc(lines + more[..j], more[j]);
    }
    assert more[..|vs|] == more;
  }

  // ----- parsing -----

  type HeaderMap = map<string, string>

  function AddLine(m: HeaderMap, line: string): HeaderMap {
    var i := IndexOfAny(line, ":");
    if i == 0 || i == |line| then m
    else
      var k := Lower(TrimSpace(line[..i]));
      var v := TrimSpace(line[i + 1..]);
      m[k := if k in m then m[k] + [NUL] + v else v]
  }

  function AddLines(lines: seq<string>): HeaderMap {
    if lines == [] then map[] else AddLine(AddLines(lines[..|lines| - 1]), lines[|lines| - 1])
  }

  method ParseHeaderBlock(raw: string) returns (m: HeaderMap)
    ensures m == AddLines(Split(raw, '\n'))
  {
    hide TrimSpace, Lower, Split;
    m := map[];
    var lines := Split(raw, '\n');
    for n := 0 to |lines|
      invariant m == AddLines(lines[..n])
    {
      assert lines[..n + 1][..n] == lines[..n];
      var line := lines[n];
      var i := IndexOfAny(line, ":");
      if i == 0 || i == |line| {
        continue;
      }
      var k := Lower(TrimSpace(line[..i]));
      var v := TrimSpace(line[i + 1..]);
      if k in m {
        m := m[k := m[k] + [NUL] + v];
      } else {
        m := m[k := v];
      }
    }
    assert lines[..|lines|] == lines;
  }

  function ValuesAt(m: HeaderMap, k: string): seq<string> {
    if k !in m || m[k] == "" then [] else Split(m[k], NUL)
  }

  // ----- the round trip -----

  /** A token of RFC 9110, section 5.6.2. */
  predicate IsTokenChar(c: char) {
    'a' <= c <= 'z' || 'A' <= c <= 'Z' || '0' <= c <= '9' || c in "!#$%&'*+-.^_`|~"
  }

  predicate IsToken(s: string) { s != "" && forall c :: c in s ==> IsTokenChar(c) }

  /** The values under the names that fold to `q`, in the order printed. */
  function ValuesNamed(h: Header, keys: seq<string>, q: string): seq<string>
    requires forall k :: k in keys ==> k in h
  {
    if keys == [] then [] else
      var k := keys[|keys| - 1];
      ValuesNamed(h, keys[..|keys| - 1], q) + if Lower(k) == q then SanitiseAll(h[k]) else []
  }

  /** What `ValuesAt` reads out of values joined under one name. */
  function Read(vs: seq<string>): seq<string> {
    if vs == [""] then [] else vs
  }

  lemma {:induction false} FirstColon(k: string, rest: string)
    requires ':' !in k
    ensures IndexOfAny(k + ":" + rest, ":") == |k|
  {
    var s := k + ":" + rest;
    if k != "" {
      assert k[0] in k && s[0] == k[0];
      assert forall c :: c in k[1..] ==> c in k;
      assert s[1..] == k[1..] + ":" + rest;
      FirstColon(k[1..], rest);
    }
  }

  lemma TokenIsPlain(k: string)
    requires IsToken(k)
    ensures ':' !in k && '\n' !in k && TrimSpace(k) == k
  {
    hide TrimSpace;
    assert forall c :: IsTokenChar(c) ==> c != ':' && c != '\n' && !IsSpace(c);
    assert k[0] in k && k[|k| - 1] in k;
    assert Trimmed(k);
  }

  /** A printed line is read back as the lower-cased name and the cleaned value. */
  lemma LineReadBack(m: HeaderMap, k: string, v: string)
    requires IsToken(k)
    ensures var q, w := Lower(k), Sanitise(v);
            AddLine(m, LineOf(k, v)) == m[q := if q in m then m[q] + [NUL] + w else w]
    ensures '\n' !in LineOf(k, v) && LineOf(k, v) != "" && NUL !in Sanitise(v)
  {
    hide TrimSpace, Lower, Sanitise, IsToken;
    var line := LineOf(k, v);
    var w := Sanitise(v);
    TokenIsPlain(k);
    SanitisedValue(v);
    assert line == k + ":" + (" " + w);
    FirstColon(k, " " + w);
    assert line[..|k|] == k && line[|k| + 1..] == " " + w;
    TrimLeadingSpace(w, ' ');
    assert TrimSpace(w) == w;
    assert k != "" by { TokenIsNotEmpty(k); }
  }

  lemma TokenIsNotEmpty(k: string)
    requires IsToken(k)
    ensures k != ""
  {
  }

  // The printed lines, one name and value each.
  function PairsOf(h: Header, keys: seq<string>): seq<(string, string)>
    requires forall k :: k in keys ==> k in h
  {
    if keys == [] then [] else
      var k := keys[|keys| - 1];
      PairsOf(h, keys[..|keys| - 1]) + MapSeq((v: string) => (k, v), h[k])
  }

  function PairLine(p: (string, string)): string { LineOf(p.0, p.1) }

  function ValuesFor(ps: seq<(string, string)>, q: string): seq<string> {
    if ps == [] then [] else
      var p := ps[|ps| - 1];
      ValuesFor(ps[..|ps| - 1], q) + if Lower(p.0) == q then [Sanitise(p.1)] else []
  }

  lemma ValuesForSnoc(ps: seq<(string, string)>, p: (string, string), q: string)
    ensures ValuesFor(ps + [p], q) == ValuesFor(ps, q) + if Lower(p.0) == q then [Sanitise(p.1)] else []
  {
    hide Sanitise, Lower;
    assert (ps + [p])[..|ps|] == ps;
  }

  lemma {:induction false} ValuesForKey(ps: seq<(string, string)>, k: string, vs: seq<string>, q: string)
    ensures ValuesFor(ps + MapSeq((v: string) => (k, v), vs), q)
            == ValuesFor(ps, q) + if Lower(k) == q then SanitiseAll(vs) else []
  {
    hide Sanitise, Lower, ValuesFor;
    var more := MapSeq((v: string) => (k, v), vs);
    if vs == [] {
      assert ps + more == ps;
    } else {
      var n := |vs| - 1;
      ValuesForKey(ps, k, vs[..n], q);
      var init := MapSeq((v: string) => (k, v), vs[..n]);
      assert ps + more == (ps + init) + [(k, vs[n])];
      ValuesForSnoc(ps + init, (k, vs[n]), q);
      SplitLast(vs);
      MapSnoc(Sanitise, vs[..n], vs[n]);
      assert SanitiseAll(vs) == SanitiseAll(vs[..n]) + [Sanitise(vs[n])];
    }
  }

  lemma {:induction false} PairsAreTheHeader(h: Header, keys: seq<string>, q: string)
    requires forall k :: k in keys ==> k in h
    ensures LinesOf(h, keys) == MapSeq(PairLine, PairsOf(h, keys))
    ensures ValuesFor(PairsOf(h, keys), q) == ValuesNamed(h, keys, q)
    ensures forall p :: p in PairsOf(h, keys) ==> p.0 in keys
  {
    hide Sanitise, Lower, ValuesFor, LineOf;
    if keys == [] {
      assert ValuesFor([], q) == [] by { NoValues(q); }
    } else {
      var n := |keys| - 1;
      SplitLast(keys);
      var k := keys[n];
      PairsAreTheHeader(h, keys[..n], q);
      ValuesForKey(PairsOf(h, keys[..n]), k, h[k], q);
      assert MapSeq(PairLine, MapSeq((v: string) => (k, v), h[k])) == LinesOfKey(k, h[k]);
    }
  }

  lemma NoValues(q: string)
    ensures ValuesFor([], q) == []
  {
  }

  lemma LinesAreClean(ps: seq<(string, string)>)
    requires forall p :: p in ps ==> IsToken(p.0)
    ensures forall l :: l in MapSeq(PairLine, ps) ==> l != "" && '\n' !in l
  {
    hide LineOf, IsToken;
    var lines := MapSeq(PairLine, ps);
    forall i | 0 <= i < |lines| ensures lines[i] != "" && '\n' !in lines[i] {
      assert ps[i] in ps;
      LineReadBack(map[], ps[i].0, ps[i].1);
    }
  }

  lemma {:induction false} ValuesAreClean(ps: seq<(string, string)>, q: string)
    ensures forall v :: v in ValuesFor(ps, q) ==> NUL !in v
  {
    hide Sanitise, Lower;
    if ps != [] {
      ValuesAreClean(ps[..|ps| - 1], q);
      SanitisedValue(ps[|ps| - 1].1);
    }
  }

  /** Adding a line for `p` extends the values under its folded name and leaves the others alone. */
  lemma ParsedSnoc(m: HeaderMap, vs: seq<string>, p: (string, string), q: string)
    requires IsToken(p.0)
    requires (q in m <==> vs != []) && (q in m ==> m[q] == Join(vs, NUL))
    ensures var m' := AddLine(m, PairLine(p));
            var vs' := vs + if Lower(p.0) == q then [Sanitise(p.1)] else [];
            (q in m' <==> vs' != []) && (q in m' ==> m'[q] == Join(vs', NUL))
  {
    hide Sanitise, Lower, IsToken, AddLine, LineOf, Join;
    LineReadBack(m, p.0, p.1);
    JoinSnoc(vs, Sanitise(p.1), NUL);
    assert vs + [] == vs;
  }

  /** The parsed map holds, under each folded name, the cleaned values in order, joined. */
  lemma {:induction false} ParsedPairs(ps: seq<(string, string)>, q: string)
    requires forall p :: p in ps ==> IsToken(p.0)
    ensures var m := AddLines(MapSeq(PairLine, ps));
            (q in m <==> ValuesFor(ps, q) != []) && (q in m ==> m[q] == Join(ValuesFor(ps, q), NUL))
  {
    hide Sanitise, Lower, IsToken, AddLine, LineOf, Join;
    if ps != [] {
      var n := |ps| - 1;
      SplitLast(ps);
      ParsedPairs(ps[..n], q);
      MapSnoc(PairLine, ps[..n], ps[n]);
      var lines := MapSeq(PairLine, ps[..n]);
      assert (lines + [PairLine(ps[n])])[..n] == lines;
      ParsedSnoc(AddLines(lines), ValuesFor(ps[..n], q), ps[n], q);
    }
  }

  lemma ReadJoined(vs: seq<string>)
    requires forall v :: v in vs ==> NUL !in v
    ensures (if vs == [] || Join(vs, NUL) == "" then [] else Split(Join(vs, NUL), NUL)) == Read(vs)
  {
    SplitJoin(vs, NUL);
    if vs != [] && Join(vs, NUL) == "" {
      assert |vs| == 1 && vs == [vs[0]];
    }
  }

  lemma SplitBlock(lines: seq<string>)
    requires forall l :: l in lines ==> l != "" && '\n' !in l
    ensures TrimNewlines(Terminated(lines)) == Join(lines, '\n')
    ensures AddLines(Split(Join(lines, '\n'), '\n')) == AddLines(lines)
  {
    hide AddLine;
    forall l | l in lines ensures l[|l| - 1] != '\n' {
      assert l[|l| - 1] in l;
    }
    TrimmedBlock(lines);
    SplitJoin(lines, '\n');
    if lines == [] {
      assert Split("", '\n') == [""];
      assert [""][..0] == [];
      assert AddLine(map[], "") == map[] by { EmptyLine(); }
    }
  }

  lemma EmptyLine()
    ensures AddLine(map[], "") == map[]
  {
  }

  /** Parsing a printed block gives back, under any name, exactly the cleaned values of the fields whose names
      fold to it, in printed order, except that a lone empty value is read as none. */
  lemma ParseOfPrinted(h: Header, keys: seq<string>, q: string)
    requires KeyOrder(h, keys) && forall k :: k in h ==> IsToken(k)
    ensures var printed := TrimNewlines(Terminated(LinesOf(h, keys)));
            ValuesAt(AddLines(Split(printed, '\n')), q) == Read(ValuesNamed(h, keys, q))
  {
    hide Sanitise, Lower, IsToken, AddLines, LineOf, Join, Split, Terminated, TrimNewlines, ValuesNamed, ValuesFor, Sorted, Read;
    var ps := PairsOf(h, keys);
    PairsAreTheHeader(h, keys, q);
    ParsedPairs(ps, q);
    LinesAreClean(ps);
    ValuesAreClean(ps, q);
    SplitBlock(LinesOf(h, keys));
    ReadJoined(ValuesFor(ps, q));
  }

  lemma {:induction false} OnlyName(h: Header, keys: seq<string>, k: string)
    requires (forall j :: j in keys ==> j in h) && NoDuplicates(keys) && k in h
    requires forall j :: j in h && Lower(j) == Lower(k) ==> j == k
    ensures ValuesNamed(h, keys, Lower(k)) == if k in keys then SanitiseAll(h[k]) else []
  {
    hide Sanitise, Lower;
    if keys != [] {
      var n := |keys| - 1;
      SplitLast(keys);
      OnlyName(h, keys[..n], k);
    }
  }

  /** The round trip of one field: when no other name folds to the same, printing and parsing gives its values
      back, cleaned. */
  lemma HeaderRoundTrip(h: Header, keys: seq<string>, k: string)
    requires KeyOrder(h, keys) && forall j :: j in h ==> IsToken(j)
    requires k in h && forall j :: j in h && Lower(j) == Lower(k) ==> j == k
    ensures var printed := TrimNewlines(Terminated(LinesOf(h, keys)));
            ValuesAt(AddLines(Split(printed, '\n')), Lower(k)) == if SanitiseAll(h[k]) == [""] then [] else SanitiseAll(h[k])
  {
    hide Sanitise, Lower, IsToken, AddLines, Join, Split, Terminated, TrimNewlines, ValuesNamed, Sorted, ValuesAt, LinesOf;
    ParseOfPrinted(h, keys, Lower(k));
    OnlyName(h, keys, k);
  }
}
