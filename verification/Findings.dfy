/** internal/finding/finding.go: the canonical finding, its order, and the merge of two findings that
    describe the same condition. */
module Findings {
  import opened Text
  import opened Ordering

  datatype Option<+T> = None | Some(value: T)

  datatype Severity = Critical | High | Medium | Low | Info | OtherSeverity(text: string) {
    function Rank(): nat {
      match this
      case Critical => 5
      case High => 4
      case Medium => 3
      case Low => 2
      case Info => 1
      case OtherSeverity(_) => 0
    }
  }

  datatype Confidence = Confirmed | Likely | Potential | OtherConfidence(text: string) {
    function Rank(): nat {
      match this
      case Confirmed => 3
      case Likely => 2
      case Potential => 1
      case OtherConfidence(_) => 0
    }

    function Promote(): Confidence {
      match this
      case Potential => Likely
      case Likely => Confirmed
      case _ => this
    }
  }

  const CATEGORIES: seq<string> :=
    ["discovery", "network", "web", "tls", "dns_email", "vuln", "secret", "hardening"]
  const MANUAL_REVIEW := "manual_review"

  datatype Evidence = Evidence(kind: string, name: string, value: string)
  datatype Control = Control(framework: string, id: string, title: string)

  /** The value of a finding record. */
  datatype Finding = Finding(
    id: string, title: string, target: string, port: int, category: string,
    severity: Severity, confidence: Confidence, cvss: real,
    cve: seq<string>, cwe: seq<string>, evidence: seq<Evidence>, tools: seq<string>,
    description: string, remediation: string, compliance: seq<Control>, status: string,
    signature: string)

  function Id(f: Finding): string { f.id }

  function Ids(fs: seq<Finding>): seq<string> { MapSeq(Id, fs) }

  predicate DistinctIds(fs: seq<Finding>) { NoDuplicates(Ids(fs)) }

  // ----- validation at the pipeline boundary -----

  datatype Fault = EmptyId | EmptyTitle | EmptyTarget | BadCategory | BadSeverity | BadConfidence
                 | NoTool | PortRange | CvssRange

  function Validate(f: Finding): Option<Fault> {
    if f.id == "" then Some(EmptyId)
    else if TrimSpace(f.title) == "" then Some(EmptyTitle)
    else if TrimSpace(f.target) == "" then Some(EmptyTarget)
    else if f.category !in CATEGORIES then Some(BadCategory)
    else if f.severity.Rank() == 0 then Some(BadSeverity)
    else if f.confidence.Rank() == 0 then Some(BadConfidence)
    else if f.tools == [] then Some(NoTool)
    else if f.port < 0 || f.port > 65535 then Some(PortRange)
    else if f.cvss < 0.0 || f.cvss > 10.0 then Some(CvssRange)
    else None
  }

  predicate IsValid(f: Finding) { Validate(f).None? }

  /** What the error says, without the values it quotes. */
  function FaultText(fault: Fault): string {
    match fault
    case EmptyId => "empty id"
    case EmptyTitle => "empty title"
    case EmptyTarget => "empty target"
    case BadCategory => "invalid category"
    case BadSeverity => "invalid severity"
    case BadConfidence => "invalid confidence"
    case NoTool => "no source tool"
    case PortRange => "port out of range"
    case CvssRange => "cvss out of range"
  }

  // ----- merging -----

  /** `a` followed by the elements of `b` it does not hold yet, each once. */
  function AppendNew(a: seq<string>, b: seq<string>): (r: seq<string>)
    ensures forall x :: x in r <==> x in a || x in b
    ensures a <= r
  {
    if b == [] then a
    else
      var n := |b| - 1;
      assert b == b[..n] + [b[n]];
      var r := AppendNew(a, b[..n]);
      if b[n] in r then r else r + [b[n]]
  }

  lemma AppendNewSnoc(a: seq<string>, b: seq<string>, x: string)
    ensures AppendNew(a, b + [x]) == if x in AppendNew(a, b) then AppendNew(a, b) else AppendNew(a, b) + [x]
  {
    var t := b + [x];
    assert t[..|t| - 1] == b && t[|t| - 1] == x;
  }

  lemma AppendNewNoDuplicates(a: seq<string>, b: seq<string>)
    requires NoDuplicates(a)
    ensures NoDuplicates(AppendNew(a, b))
  {
    if b != [] {
      AppendNewNoDuplicates(a, b[..|b| - 1]);
    }
  }

  function SortStrings(s: seq<string>): (r: seq<string>)
    ensures multiset(r) == multiset(s)
    ensures forall x :: x in r <==> x in s
    ensures |r| == |s|
  {
    var r := SortBy(StrLeq, s);
    SameElements(r, s);
    r
  }

  function MergeUnique(a: seq<string>, b: seq<string>): seq<string> {
    SortStrings(AppendNew(a, b))
  }

  predicate BringsNewTool(f: Finding, other: Finding) {
    exists t :: t in other.tools && t !in f.tools
  }

  function HigherConfidence(a: Confidence, b: Confidence): Confidence {
    if b.Rank() > a.Rank() then b else a
  }

  function MergeFinding(f: Finding, other: Finding): (r: Finding)
    ensures r.id == f.id
  {
    var c := HigherConfidence(f.confidence, other.confidence);
    f.(tools := MergeUnique(f.tools, other.tools),
       severity := if other.severity.Rank() > f.severity.Rank() then other.severity else f.severity,
       confidence := if BringsNewTool(f, other) then c.Promote() else c,
       cvss := if f.cvss == 0.0 && other.cvss > 0.0 then other.cvss else f.cvss,
       cve := MergeUnique(f.cve, other.cve),
       cwe := MergeUnique(f.cwe, other.cwe),
       evidence := f.evidence + other.evidence,
       remediation := if f.remediation == "" then other.remediation else f.remediation,
       status := if other.status == MANUAL_REVIEW then MANUAL_REVIEW else f.status)
  }

  /** Corroboration raises confidence by at most one step, and never without a new tool. */
  lemma CorroborationIsOneStep(f: Finding, other: Finding)
    ensures var r := MergeFinding(f, other);
            var c := HigherConfidence(f.confidence, other.confidence);
            && c.Rank() <= r.confidence.Rank() <= c.Rank() + 1
            && r.confidence.Rank() <= 3
            && (r.confidence != c ==> BringsNewTool(f, other))
  {
    hide MergeUnique, AppendNew, BringsNewTool;
  }

  /** The two scales, as words. */
  lemma Scales(other: string)
    ensures Critical.Rank() > High.Rank() > Medium.Rank() > Low.Rank() > Info.Rank() > OtherSeverity(other).Rank() == 0
    ensures Confirmed.Rank() > Likely.Rank() > Potential.Rank() > OtherConfidence(other).Rank() == 0
    ensures Potential.Promote() == Likely && Likely.Promote() == Confirmed && Confirmed.Promote() == Confirmed
  {
  }

  // ----- presentation order -----

  predicate FindingLeq(a: Finding, b: Finding) {
    if a.severity.Rank() != b.severity.Rank() then a.severity.Rank() > b.severity.Rank()
    else if a.confidence.Rank() != b.confidence.Rank() then a.confidence.Rank() > b.confidence.Rank()
    else if a.category != b.category then StrLeq(a.category, b.category)
    else if a.target != b.target then StrLeq(a.target, b.target)
    else StrLeq(a.id, b.id)
  }

  /** `a` may stand before `b`: it is worse, or as bad and surer, or neither and first by category, target and id. */
  predicate MayPrecede(a: Finding, b: Finding) {
    && a.severity.Rank() >= b.severity.Rank()
    && (a.severity.Rank() == b.severity.Rank() ==> a.confidence.Rank() >= b.confidence.Rank())
    && (a.severity.Rank() == b.severity.Rank() && a.confidence.Rank() == b.confidence.Rank() ==>
         && StrLeq(a.category, b.category)
         && (a.category == b.category ==> StrLeq(a.target, b.target))
         && (a.category == b.category && a.target == b.target ==> StrLeq(a.id, b.id)))
  }

  ghost predicate WorstFirst(fs: seq<Finding>) {
    forall i, j :: 0 <= i < j < |fs| ==> MayPrecede(fs[i], fs[j])
  }

  lemma FindingOrder()
    ensures TotalPreorder(FindingLeq)
    ensures forall a, b :: FindingLeq(a, b) <==> MayPrecede(a, b)
    ensures forall a, b :: FindingLeq(a, b) && FindingLeq(b, a) ==> a.id == b.id
  {
    forall a, b ensures FindingLeq(a, b) <==> MayPrecede(a, b) {
      LeqMeans(a, b);
    }
    forall a, b ensures FindingLeq(a, b) || FindingLeq(b, a) {
      StrTotal(a.category, b.category);
      StrTotal(a.target, b.target);
      StrTotal(a.id, b.id);
    }
    forall a, b, c | FindingLeq(a, b) && FindingLeq(b, c) ensures FindingLeq(a, c) {
      FindingTransitive(a, b, c);
    }
    forall a, b | FindingLeq(a, b) && FindingLeq(b, a) ensures a.id == b.id {
      if StrLeq(a.category, b.category) && StrLeq(b.category, a.category) { StrAntisymmetric(a.category, b.category); }
      if StrLeq(a.target, b.target) && StrLeq(b.target, a.target) { StrAntisymmetric(a.target, b.target); }
      if StrLeq(a.id, b.id) && StrLeq(b.id, a.id) { StrAntisymmetric(a.id, b.id); }
    }
  }

  lemma LeqMeans(a: Finding, b: Finding)
    ensures FindingLeq(a, b) <==> MayPrecede(a, b)
  {
    StrTotal(a.category, a.category);
    StrTotal(a.target, a.target);
    hide StrLeq;
  }

  lemma FindingTransitive(a: Finding, b: Finding, c: Finding)
    requires FindingLeq(a, b) && FindingLeq(b, c)
    ensures FindingLeq(a, c)
  {
    if a.severity.Rank() == b.severity.Rank() == c.severity.Rank()
       && a.confidence.Rank() == b.confidence.Rank() == c.confidence.Rank() {
      if a.category == b.category == c.category {
        if a.target == b.target == c.target {
          StrTransitive(a.id, b.id, c.id);
        } else if a.target != b.target && b.target != c.target {
          StrTransitive(a.target, b.target, c.target);
          if a.target == c.target { StrAntisymmetric(a.target, b.target); }
        }
      } else if a.category != b.category && b.category != c.category {
        StrTransitive(a.category, b.category, c.category);
        if a.category == c.category { StrAntisymmetric(a.category, b.category); }
      }
    }
  }

  function SortFindings(fs: seq<Finding>): (r: seq<Finding>)
    ensures multiset(r) == multiset(fs) && |r| == |fs|
  {
    SortBy(FindingLeq, fs)
  }

  // ----- tallies -----

  datatype Counts = Counts(critical: nat, high: nat, medium: nat, low: nat, info: nat, total: nat)

  const ZERO_COUNTS := Counts(0, 0, 0, 0, 0, 0)

  function Count(fs: seq<Finding>): Counts {
    var m := multiset(MapSeq((f: Finding) => f.severity, fs));
    Counts(m[Critical], m[High], m[Medium], m[Low], m[Info], |fs|)
  }

  /** One more finding of severity `s`. */
  function Bump(c: Counts, s: Severity): Counts {
    var k := match s
      case Critical => c.(critical := c.critical + 1)
      case High => c.(high := c.high + 1)
      case Medium => c.(medium := c.medium + 1)
      case Low => c.(low := c.low + 1)
      case Info => c.(info := c.info + 1)
      case OtherSeverity(_) => c;
    k.(total := k.total + 1)
  }

  lemma CountSnoc(fs: seq<Finding>, f: Finding)
    ensures Count(fs + [f]) == Bump(Count(fs), f.severity)
  {
    MapSnoc((g: Finding) => g.severity, fs, f);
  }

  method CountLoop(fs: seq<Finding>) returns (c: Counts)
    ensures c == Count(fs)
  {
    c := ZERO_COUNTS;
    for i := 0 to |fs|
      invariant c == Count(fs[..i])
    {
      assert fs[..i + 1] == fs[..i] + [fs[i]];
      CountSnoc(fs[..i], fs[i]);
      c := Bump(c, fs[i].severity);
    }
    assert fs[..|fs|] == fs;
  }
}
