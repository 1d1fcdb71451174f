/** internal/finding/finding.go: which findings are let in, and what a group of them is merged into, field by field. */
module FindingMeaning {
  import opened Text
  import opened Ordering
  import opened Findings
  import opened Correlate

  ghost predicate Blank(s: string) { forall k :: 0 <= k < |s| ==> IsSpace(s[k]) }

  lemma TrimmedAway(s: string)
    ensures TrimSpace(s) == "" <==> Blank(s)
  {
    hide IsSpace, TrimLeft, TrimRight;
    TrimSpaceMeans(s);
    var i, j :| 0 <= i <= j <= |s| && TrimSpace(s) == s[i..j] && (forall k :: 0 <= k < i || j <= k < |s| ==> IsSpace(s[k]));
    if i < j {
      assert TrimSpace(s)[0] == s[i];
      assert Trimmed(TrimSpace(s));
    }
  }

  /** A finding is let in exactly when it has an identity, a title and a target that are not blank, a tool, one of the
      known categories, classes and confidences, and a port and a score within their ranges. */
  lemma ValidMeans(f: Finding)
    ensures IsValid(f) <==>
            && f.id != "" && !Blank(f.title) && !Blank(f.target) && f.tools != []
            && f.category in ["discovery", "network", "web", "tls", "dns_email", "vuln", "secret", "hardening"]
            && f.severity in [Critical, High, Medium, Low, Info] && f.confidence in [Confirmed, Likely, Potential]
            && 0 <= f.port <= 65535 && 0.0 <= f.cvss <= 10.0
  {
    hide TrimSpace, Blank;
    TrimmedAway(f.title);
    TrimmedAway(f.target);
  }

  /** The score of the first member that gives one; a score of the first member is never replaced. */
  ghost predicate ScoreOf(cvss: real, g: seq<Finding>)
    requires g != []
  {
    if g[0].cvss != 0.0 then cvss == g[0].cvss
    else if forall k :: 0 <= k < |g| ==> g[k].cvss <= 0.0 then cvss == 0.0
    else exists k :: 0 <= k < |g| && g[k].cvss == cvss > 0.0 && forall j :: 0 <= j < k ==> g[j].cvss <= 0.0
  }

  /** The first advice anyone gives. */
  ghost predicate AdviceOf(text: string, g: seq<Finding>) {
    if forall k :: 0 <= k < |g| ==> g[k].remediation == "" then text == ""
    else exists k :: 0 <= k < |g| && g[k].remediation == text != "" && forall j :: 0 <= j < k ==> g[j].remediation == ""
  }

  /** Flagged for review when a later member is, and otherwise as the first one stands. */
  ghost predicate StatusOf(status: string, g: seq<Finding>)
    requires g != []
  {
    status == if exists k :: 1 <= k < |g| && g[k].status == "manual_review" then "manual_review" else g[0].status
  }

  /** What is left of a group: the first member, with the score, the advice and the status of the group and its lists
      put in order; severity, confidence, members of the lists and evidence are stated by the lemmas about groups. */
  lemma {:induction false} GroupFields(g: seq<Finding>)
    requires g != []
    ensures var r := FoldGroup(g);
            && ScoreOf(r.cvss, g) && AdviceOf(r.remediation, g) && StatusOf(r.status, g)
            && (|g| > 1 ==> Sorted(StrLeq, r.tools) && Sorted(StrLeq, r.cve) && Sorted(StrLeq, r.cwe))
            && r == g[0].(tools := r.tools, severity := r.severity, confidence := r.confidence, cvss := r.cvss, cve := r.cve,
                          cwe := r.cwe, evidence := r.evidence, remediation := r.remediation, status := r.status)
  {
    hide MergeUnique, BringsNewTool, HigherConfidence, StrLeq;
    var n := |g| - 1;
    if n > 0 {
      var h := g[..n];
      SplitLast(g);
      GroupFields(h);
      var f := FoldGroup(h);
      ScoreStep(h, g[n], f.cvss);
      AdviceStep(h, g[n], f.remediation);
      StatusStep(h, g[n], f.status);
      UniqueSorted(f.tools, g[n].tools);
      UniqueSorted(f.cve, g[n].cve);
      UniqueSorted(f.cwe, g[n].cwe);
      assert FoldGroup(g) == MergeFinding(f, g[n]);
      hide FoldGroup, ScoreOf, AdviceOf, StatusOf;
    }
  }

  lemma UniqueSorted(a: seq<string>, b: seq<string>)
    ensures Sorted(StrLeq, MergeUnique(a, b))
  {
    hide StrLeq, SortBy;
    StrOrder();
    SortBySorted(StrLeq, AppendNew(a, b));
  }

  lemma ScoreStep(h: seq<Finding>, x: Finding, c: real)
    requires h != [] && ScoreOf(c, h)
    ensures ScoreOf(if c == 0.0 && x.cvss > 0.0 then x.cvss else c, h + [x])
  {
    var g := h + [x];
    assert g[|h|] == x && forall k :: 0 <= k < |h| ==> g[k] == h[k];
  }

  lemma AdviceStep(h: seq<Finding>, x: Finding, text: string)
    requires AdviceOf(text, h)
    ensures AdviceOf(if text == "" then x.remediation else text, h + [x])
  {
    var g := h + [x];
    assert g[|h|] == x && forall k :: 0 <= k < |h| ==> g[k] == h[k];
  }

  lemma StatusStep(h: seq<Finding>, x: Finding, status: string)
    requires h != [] && StatusOf(status, h)
    ensures StatusOf(if x.status == "manual_review" then "manual_review" else status, h + [x])
  {
    var g := h + [x];
    assert g[|h|] == x && forall k :: 0 <= k < |h| ==> g[k] == h[k];
  }
}
