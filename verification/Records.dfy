/** internal/store/store.go: the records every other package passes around. Times are integers on one
    clock; `ZERO_TIME` is Go's zero time. */
module Records {
  import opened Findings

  const ZERO_TIME := 0
  const DAY := 86400
  const DEFAULT_AUTHORISATION_DAYS := 90

  datatype JobState = Queued | Running | Completed | Failed | Refused {
    predicate Terminal() { Completed? || Failed? || Refused? }
  }

  datatype AdapterRun = AdapterRun(
    name: string, kind: string, ok: bool, findings: nat, skipped: bool, reason: string, safeFlags: seq<string>)

  datatype TargetOutcome = TargetOutcome(
    target: string, processed: bool, reason: string, verified: bool, inScope: bool, findings: nat)

  datatype AuthzRecord = AuthzRecord(
    operator: string, statement: string, targets: seq<string>, scope: seq<string>,
    confirmed: bool, at: int, entryHash: string, prevHash: string)

  const NO_AUTHZ := AuthzRecord("", "", [], [], false, ZERO_TIME, "", "")

  datatype Job = Job(
    id: string, workspace: string, profile: string, definitionId: string, baselineJobId: string,
    trigger: string, state: JobState, created: int, started: int, finished: int, error: string,
    authz: AuthzRecord, targets: seq<TargetOutcome>, adapters: seq<AdapterRun>,
    progress: int, phase: string, findingsTotal: nat, findingsShown: nat, tier: string)

  datatype Definition = Definition(
    id: string, workspace: string, name: string, profile: string,
    targets: seq<string>, scope: seq<string>, scanPath: string,
    operator: string, statement: string, authorisedAt: int, authorisedFor: int,
    intervalDays: int, nextRunAt: int, lastRunId: string, lastRunAt: int, lastSkipReason: string,
    notifyOn: string, enabled: bool, created: int)
  {
    /** When the recorded authorisation lapses. */
    function AuthorisationExpires(): int {
      authorisedAt + DAY * (if authorisedFor <= 0 then DEFAULT_AUTHORISATION_DAYS else authorisedFor)
    }

    predicate AuthorisationValid(t: int) {
      authorisedAt != ZERO_TIME && t < AuthorisationExpires()
    }
  }
}
