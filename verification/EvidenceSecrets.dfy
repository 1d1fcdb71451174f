/** internal/aiclient/evidence.go: what the sanitised copy holds, told letter by letter and number by number. */
module EvidenceSecrets {
  import opened Text
  import opened Ordering
  import opened Findings
  import opened Evidence

  // ----- the copy -----

  /** The text, or its first 400 characters and an ellipsis. */
  predicate Shortened(out: Value, s: string) {
    out == Str(if |s| <= 400 then s else s[..400] + "…")
  }

  ghost predicate ShowsKeys(out: map<string, Value>, m: map<string, Value>) {
    forall k :: k in out <==> k in m && !GivesAway(k) && |Earlier(m, k)| < 24
  }

  /** What is sent for a value at a depth: scalars as they are, texts shortened, the first 24 keys without a secret word,
      the first 12 entries of a list, three levels of nesting, and a marker for anything else. */
  ghost predicate Shows(out: Value, v: Value, depth: nat) {
    match v
    case Str(s) => Shortened(out, s)
    case Object(m) =>
      if depth >= 3 then out == Str("[omitted: nested too deep]")
      else out.Object? && ShowsKeys(out.m, m) && forall k :: k in out.m && k in m ==> Shows(out.m[k], m[k], depth + 1)
    case List(items) =>
      if depth >= 3 then out == Str("[omitted: nested too deep]")
      else
        && out.List? && |out.items| == (if |items| <= 12 then |items| else 12)
        && forall i :: 0 <= i < |out.items| && i < |items| ==> Shows(out.items[i], items[i], depth + 1)
    case Strings(texts) =>
      && out.List? && |out.items| == (if |texts| <= 12 then |texts| else 12)
      && forall i :: 0 <= i < |out.items| && i < |texts| ==> Shortened(out.items[i], texts[i])
    case Other(Some(j)) => Shows(out, j, depth)
    case Other(None) => out == Str("[omitted: not serialisable]")
    case _ => out == v
  }

  lemma KeysShown(out: map<string, Value>, m: map<string, Value>)
    requires out.Keys == Kept(m.Keys)
    ensures ShowsKeys(out, m)
  {
    hide Kept, GivesAway, Earlier;
    forall k ensures k in out <==> k in m && !GivesAway(k) && |Earlier(m, k)| < 24 {
      KeptMeans(m, k);
    }
  }

  /** The sanitiser sends exactly that, at every depth. */
  lemma {:induction false} SanitisedShows(v: Value, depth: nat)
    ensures Shows(Sanitise(v, depth), v, depth)
  {
    hide Kept, GivesAway, ShowsKeys;
    var out := Sanitise(v, depth);
    match v
    case Object(m) =>
      if depth < 3 {
        assert out.m.Keys == Kept(m.Keys);
        KeysShown(out.m, m);
        forall k | k in out.m && k in m ensures Shows(out.m[k], m[k], depth + 1) {
          SanitisedShows(m[k], depth + 1);
        }
      }
    case List(items) =>
      if depth < 3 {
        forall i | 0 <= i < |out.items| && i < |items| ensures Shows(out.items[i], items[i], depth + 1) {
          SanitisedShows(items[i], depth + 1);
        }
      }
    case Other(Some(j)) =>
      SanitisedShows(j, depth);
    case _ =>
  }

  // ----- nothing secret is sent -----

  /** Whatever the evidence: nothing in what is sent is under a key that gives a secret away, at any depth, and of the other
      keys the first 24 are sent, each with what is shown of its value. */
  lemma SecretsStayHome(m: map<string, Value>, k: string)
    ensures var out := SanitiseMap(m, 1);
            && Redact(Object(out)) == Object(out)
            && (k in out <==> k in m && !GivesAway(k) && |Earlier(m, k)| < 24)
            && (k in out ==> Shows(out[k], m[k], 1))
  {
    hide Sanitise, Kept, GivesAway, Earlier, Bounded;
    SanitisedIsBounded(Object(m), 0);
    BoundedIsRedacted(Object(SanitiseMap(m, 1)), MAX_DEPTH);
    KeptMeans(m, k);
    if k in SanitiseMap(m, 1) {
      SanitisedShows(m[k], 1);
    }
  }

  lemma {:induction false} BoundedIsRedacted(v: Value, room: nat)
    requires Bounded(v, room)
    ensures Redact(v) == v
    decreases v
  {
    hide GivesAway;
    match v
    case Object(m) =>
      forall k | k in m ensures Redact(m[k]) == m[k] {
        BoundedIsRedacted(m[k], room - 1);
      }
      assert Redact(v).m == m;
    case List(items) =>
      forall i | 0 <= i < |items| ensures Redact(items[i]) == items[i] {
        if room > 0 {
          BoundedIsRedacted(items[i], room - 1);
        }
      }
      assert Redact(v).items == items;
    case _ =>
  }
}
