# AuditLight, verified

A Dafny model of the deterministic core of AuditLight: how findings are gathered, merged, compared and drawn,
where they are stored, and what has to hold before, between and after the runs that produce them.
`dafny verify dfyconfig.toml` checks the whole project.

## What is modelled

- **The attack-surface graph** (`SurfaceTree`, `SurfaceBuild`): roots for the declared targets, hosts filed under the
  longest declared suffix, services under hosts, a total sibling order, folding of long child lists, roll-up of
  counts. `SurfaceProofs`, `SurfaceCounts` and `SurfaceShape` hold its promises; `SurfaceOrder` and `SurfaceMeaning`
  tell the picture from the places of the findings alone. `SurfaceHeap`, `SurfaceForest`, `SurfaceKeys`,
  `SurfacePlacing` and `SurfaceMethod` are the same code in its own form, linked nodes changed in place and maps with
  text keys, proved to draw exactly that graph.
- **Findings, correlation and ranking** (`Findings`, `Correlate`): merging by identity, confidence promotion, the
  honest cap, with what these come to field by field in `FindingMeaning` and `Ranking`. `Slices` and `FindingRecords`
  are findings as records whose lists lie in arrays; `Correlation` runs on them, and `SharedSlices`, `SharedFull` and
  `CallersLists` say what that does to lists that callers share. `Corroboration` says when the order of reports
  decides the confidence of a group.
- **The stores** (`Store`, `StoreRecords`, `MergingStore`, `MemStore`, `MemSession`, `FileStore`, `StoreProofs`,
  `StoreReopen`, `StoreCrash`): the memory store on the heap with its deep copies and its isolation from callers, the
  file store as cache plus disk, their agreement under failing writes, crashes and restarts. `StoreTable` is what both
  are for: two lists in order of creation.
- **Change tracking and the exported stream** (`Delta`, `DeltaReport`, `Siem`, `SiemTrace`): the comparison of runs,
  the events sent, and what a receiver that replays them holds after any history.
- **Authorisation** (`Authz`, `AuthzGate`, `AuthzProofs`, `AuthzScope`): the hash chain, the text it hashes, the
  canonical lists, the gate, and whom it lets through.
- **Submitting and running a job** (`Submission`, `Runner`, `RunnerMeaning`, `RunnerLoop`, `RunnerMerge`): from a
  request through the gate to the job record, and the loop over adapters and targets with its progress, its accounting
  and its correlation.
- **Saved assessments** (`Schedule`, `ScheduleProofs`, `ScheduleTraces`, `ScheduleMeaning`): saving, ticking, manual
  runs, re-authorising and deleting, over every trace on one monotone clock.
- **Three smaller pieces**: the evidence sanitiser (`Evidence`, `EvidenceSecrets`), the header-block printer and
  parser (`Headers`, `HeaderMeaning`), version comparison and signature matching (`Versions`, `VersionMeaning`, with
  `OpenPorts`).

`Text`, `Ordering` and `Records` hold what these share: the string operations of the Go library, sorting and
de-duplication of lists, and the records of the store package.

## Assumptions

- Steps are atomic: a store operation, a turn of the scheduler, a step of the runner. Each write may fail where the
  source can see it fail; the failure is an input.
- Times are integers on one clock and a day has a fixed length; a calendar date is printed as its day number.
- Characters are Unicode scalar values; case folding covers the ASCII letters.
- Sorting in the Go library is modelled by a stable insertion sort; the proofs use only that it is a sorted permutation
  and, where elements may tie, that it is stable.
- The digest is a parameter. Its output is fixed-width hexadecimal, and collisions are excluded only among the texts of
  the two logs being compared.
- JSON encoding is lossless except for the signature of a finding, which is not serialised.
- Adapters, address parsing, the version pattern, the control mapping and the outcome of submitting a run are
  parameters.

## Where comments and code differ

The code is followed; the lemma named says what it does.

- Siblings are ordered by what is recorded at a node, or below it when there is nothing at it, not by the rolled-up
  severity: `SurfaceTree.NodeOrder`.
- `Truncated` counts folded siblings, not what hangs below them: `SurfaceTree.FoldedIsHidden`.
- The copy in `correlate.Merge` shares the CVE and CWE lists with the caller, who may find them reordered or replaced:
  `SharedSlices.CallerKeepsItsListExactlyWhen`, `CallersLists.CallersListIsReplaced`.
- The note about a rejected finding is written to a copy of a record already kept: `RunnerLoop.NotesAreLostExactlyWhen`.
- "The previous completed run" is the latest-created other one, which is the predecessor only when runs of a definition
  do not overlap: `SiemTrace.FinishMirrorsExactlyWhen`, `SiemTrace.OverlapLosesAFinding`.
- The confidence of a merged group can depend on the order in which its findings were reported. For findings of one tool
  each it does exactly when there are two tools, each has said potential, one has said likely and nothing is confirmed:
  `Corroboration.OrderMattersExactlyWhen`, `Corroboration.DecidesExactlyWhenContested`.
- A run whose definition cannot be written afterwards has started but is reported as refused, and a later scheduled
  attempt may come too soon: `ScheduleTraces.LostManualRunIsRepeatedExactlyWhen`, `ScheduleTraces.UnkeptAttemptRepeats`.
- A target with a comma makes the hashed text ambiguous: `AuthzProofs.CommaTargetsLeaveOneHash`.

## Corollaries

Read off the results below with little proof of their own: over the writes of a run progress never decreases, is below 100
before the last and 100 at it (`RunnerLoop.ProgressNeverGoesBack`, from `RunnerLoop.RunJob`); a scheduled attempt pushes
the next one out exactly when one of its writes succeeds (`ScheduleTraces.PushedOutExactlyWhenKept`), so attempts are
spaced exactly when none follows a lost one too soon (`ScheduleTraces.SpacedExactlyWhenLostAreSpared`, from
`ScheduleTraces.KeptAttemptsAreRespected`).

## Model

| member | source | states |
|---|---|---|
| `SurfaceMethod.BuildInPlace` | internal/surface/surface.go:129-264 | The whole of `Build` on linked nodes and text-keyed maps draws exactly the graph of the value model: same roots, same trees, same counters, each root on nodes of its own. What that graph shows is `SurfaceOrder.WorstIsDrawnFirst`. |
| `SurfaceOrder.WorstIsDrawnFirst` | internal/surface/surface.go:129-389 | The whole picture from the places of the findings alone: every node's label, class counts at it and below it, worst class and sorted identities; worse roots and siblings first, then by port, label and identifier; past 24 hosts or 14 services the last ones share a node stating how many they are, so nothing folded away is worse than what is drawn. |
| `SurfaceOrder.RankIsPeak` | internal/surface/surface.go:318-343 | A node is ordered by the worst class recorded at it, or, when nothing of a known class is, by the worst any child is ordered by. |
| `SurfaceMeaning.PathMeans` | internal/surface/surface.go:161-246 | A finding is recorded under the declared target whose labels end those of its host, the longest such, or under none exactly when there is none; at its host unless that is the target, and at its port when it has one. |
| `SurfaceMeaning.PlanMeans` | internal/surface/surface.go:136-159 | One root for each key a declared target has, in the spelling and with the outcome of the first such target. |
| `SurfaceMeaning.DeclaredMean` | internal/surface/surface.go:269-285 | The declared targets are the recorded outcomes by name, or the authorised targets when there is none. |
| `SurfaceMeaning.UrlKey` | internal/surface/surface.go:445-470 | Scheme, user, path, query and fragment do not matter to the key of a host. |
| `SurfaceMeaning.PortKey` | internal/surface/surface.go:445-470 | Neither does a port or one trailing dot, and a bracketed address keeps its brackets. |
| `SurfaceMeaning.CountersMean` | internal/surface/surface.go:252-263 | The graph counts the declared targets not processed, and the findings with a host under none of them. |
| `SurfaceMethod.PlaceAll` | internal/surface/surface.go:177-250 | The loop over the findings keeps the half-grown forest, the maps and the counters in step with the findings walked so far; findings without a host are passed over. |
| `SurfaceMethod.PlaceOne` | internal/surface/surface.go:177-250 | One finding extends the forest by at most a root, a host and a service, and is recorded at exactly one node. |
| `SurfaceMethod.PlantRoots` | internal/surface/surface.go:136-159 | One root per non-empty declared key, the first spelling winning; skipped targets are counted once. |
| `SurfacePlacing.ChooseRoot` | internal/surface/surface.go:186-205 | The root of a finding is the one of the first matching key; otherwise the unplaced root, opened once and counted every time. |
| `SurfacePlacing.PlaceHost` | internal/surface/surface.go:207-226 | The holder is the root itself when it is that host; otherwise the host's only node, found or created. |
| `SurfacePlacing.PlaceService` | internal/surface/surface.go:228-246 | A finding with a port is recorded at the only node of that port under its holder, found or created; without one, at the holder. |
| `SurfaceKeys.HostKeyDecides` | internal/surface/surface.go:210-213 | Two hosts never share a key of the hosts map, although names may hold the separator, because each is filed under its longest declared root. |
| `SurfaceKeys.ServiceKeyDecides` | internal/surface/surface.go:229-232 | Two services share a key of the services map only when holder and port are the same. |
| `SurfacePlacing.HostLookup` | internal/surface/surface.go:210-225 | Looking a host up by its key finds its node exactly when it has one. |
| `SurfaceForest.Sprout` | internal/surface/surface.go:214-244 | Creating a node appends it to its parent's children and leaves every other node of the forest as it was. |
| `SurfaceForest.GrownTree` | internal/surface/surface.go:174-250 | Once every finding is recorded, the linked nodes under a path form exactly the tree that the value model grows there. |
| `SurfaceHeap.Vertex.RollUp` | internal/surface/surface.go:381-389 | In place, every node of the tree gets the sum and the worst severity of everything at and below it. |
| `SurfaceHeap.Vertex.Normalise` | internal/surface/surface.go:287-293 | In place, identities are sorted and children ordered after each was normalised; the result is the normalised tree. |
| `SurfaceHeap.Vertex.Trim` | internal/surface/surface.go:345-378 | In place, child lists beyond the limit are folded at every level; the result is the folded tree and the number returned is the number folded. |
| `SurfaceHeap.Vertex.Fold` | internal/surface/surface.go:346-373 | The tail beyond the limit is replaced by one new node that states how many siblings it stands for and carries their rolled-up counts. |
| `SurfaceProofs.BuildIgnoresOrder` | internal/surface/surface.go:129-264 | The graph is the same for every permutation of the findings: nodes, child order, counts, identities and folds. |
| `SurfaceProofs.TreeIgnoresOrder` | internal/surface/surface.go:287-316 | So is every normalised subtree: sibling order is total and every accumulation commutes. |
| `SurfaceTree.NodeOrder` | internal/surface/surface.go:298-316 | The sibling order is a total preorder that puts the higher rank first, then the lower port and the smaller label; its ties agree on port, label and identifier. |
| `SurfaceTree.FoldingLosesNothing` | internal/surface/surface.go:345-389 | Every kept node of the drawing carries the roll-up of the unfolded tree, and a fold node carries the whole tally of what it replaces. |
| `SurfaceTree.FoldedIsHidden` | internal/surface/surface.go:345-378 | The number trim reports is the number the fold nodes state; descendants of folded siblings are not counted. |
| `SurfaceCounts.RootsAccountForEveryFinding` | internal/surface/surface.go:177-263 | Per severity class, the roots' totals add up to the findings that have a host key and a known severity: none lost, none counted twice. |
| `SurfaceCounts.GrowTotal` | internal/surface/surface.go:248-250 | The total at a node is the tally of the findings placed at or below it. |
| `SurfaceCounts.EveryRootIsRolledUp` | internal/surface/surface.go:252-263 | Every root of the graph draws its unfolded tree in the sense of FoldingLosesNothing. |
| `SurfaceBuild.RootIsLongestSuffix` | internal/surface/surface.go:161-205 | A host sits under the longest declared key it equals or is a sub-domain of, strictly longer than any other such key, and under no declared root exactly when there is none. |
| `SurfaceShape.LinksAndTruncation` | internal/surface/surface.go:214-263 | Every node below a root names its parent, and `Truncated` is the sum of all `Hidden`. |
| `SurfaceShape.IdentifiersUnique` | internal/surface/surface.go:215-240 | No host or service identifier occurs twice in the drawing. |
| `SurfaceShape.ChildListsAreLimited` | internal/surface/surface.go:345-373 | At every level of the drawing a child list, fold node included, keeps within the host limit, and within the service limit when it holds services only. |
| `SurfaceShape.CountersCountDistinct` | internal/surface/surface.go:173-246 | `Hosts` counts the distinct hosts beside the declared ones, `Services` the distinct (host, port) pairs. |
| `FindingRecords.FindingRecord.Clone` | internal/finding/finding.go:223-246 | The copy has the same value and five arrays of its own, all new; nothing it reaches is reached by the original. |
| `FindingRecords.FindingRecord.Merge` | internal/finding/finding.go:289-327 | Merging updates the record in place to the merged value; each list it touches ends in its old array, as append and sort leave it, or in a new one, and nothing else changes. |
| `Findings.CorroborationIsOneStep` | internal/finding/finding.go:287-310 | A merge raises confidence by at most one step over the better statement, never past confirmed, and only when a new tool came in. |
| `FindingRecords.AppendMissing` | internal/finding/finding.go:290-296 | The loop appends the tools not yet listed, in order of arrival, into the spare room of the array or into a new one, and reports whether there was any. |
| `Findings.FindingOrder` | internal/finding/finding.go:332-349 | The presentation order is a total preorder: worse first, then surer, then by category, target and identifier; its ties agree on the identifier. |
| `Ranking.RankedWorstFirst` | internal/score/score.go:27-33 | A ranked list holds what was ranked, no entry worse than, or as bad and surer than, one before it, ties by category, target and identifier. |
| `Ranking.CapWithholdsTheMildest` | internal/score/score.go:35-48 | The cap shows the first entries up to the limit, all for none, and what it withholds is no worse than anything shown, nor surer where as bad. |
| `FindingMeaning.ValidMeans` | internal/finding/finding.go:261-285 | A finding is let in if and only if it has an identity, a title and a target that are not blank, a tool, a known category, class and confidence, and port and score in range. |
| `FindingMeaning.GroupFields` | internal/finding/finding.go:289-327 | A merged group is its first member with the first score anyone gives (its own is never replaced), the first advice given, the review flag of any later member, and its lists in order. |
| `Findings.CountLoop` | internal/finding/finding.go:362-380 | Counting by severity class agrees with the multiset of severities; unknown severities count in the total only. |
| `Correlation.Merge` | internal/correlate/correlate.go:29-58 | Whatever CVE and CWE arrays the input findings share: the result is the fold of the input but for those two lists, which are what a pass over each column leaves, as are the callers' arrays; input = output + merged, corroborated counts findings with several tools. When lists that share an array fill it, the result is the fold of the values if and only if no group of one loses the order of a list, and every caller's list is what `AfterPass` says. |
| `Correlation.FoldHoldsExactlyWhen` | internal/correlate/correlate.go:34-46 | When lists that share an array fill it: a pass leaves every group the lists of the fold if and only if each group of one whose array some group sorts has a sorted list. |
| `SharedFull.CallersAreLeftWith` | internal/correlate/correlate.go:34-46 | What each caller sees after such a pass: a list in a shared array is sorted if some group that starts there has a second member that lists nothing new, else as it was; one in an array of its own is what the group it starts leaves of it, or as it was. |
| `SharedFull.GroupKeepsItsListExactlyWhen` | internal/correlate/correlate.go:34-46 | A group is left the merged list of its members as they were if and only if it has several, or no group sorts its array, or its list was sorted. |
| `SharedFull.SortedListsAreSafe` | internal/adapters/vulnsig.go:45-99 | When the shared lists are sorted, as every literal of the signatures is, every group keeps its order and no shared list changes. |
| `CallersLists.CorrelateLiterals` | internal/adapters/vulnsig.go:204-204 | A run of `Merge` on findings that share sorted literals: the result is the fold of their values, order included, and no shared list changes. |
| `CallersLists.OrderIsLost` | internal/correlate/correlate.go:40-43 | A run of `Merge` over one unsorted literal: the second group sorts it under the first, whose one member loses its order. |
| `CallersLists.ListLosesAnEntry` | internal/correlate/correlate.go:40-43 | A run of `Merge` over a shared array with room to spare, which no adapter here builds: a group loses a CVE and gets one of another group. |
| `Correlate.FoldedIds` | internal/correlate/correlate.go:34-46 | Correlation keeps exactly the identities of the input, once each, in order of first appearance. |
| `Correlate.FoldInGroups` | internal/correlate/correlate.go:34-46 | Each correlated finding is the fold of the findings with its identity, in order. |
| `Correlate.GroupSeverity` | internal/finding/finding.go:299-302 | A folded group has the severity of one of its members and none is worse. |
| `Correlate.GroupUnions` | internal/finding/finding.go:291-316 | A folded group lists exactly the tools, CVEs and CWEs of its members and keeps all evidence. |
| `Correlate.GroupConfidence` | internal/finding/finding.go:303-310 | The confidence of a folded group lies between the best statement and that plus one step per further tool, capped at confirmed. |
| `Corroboration.GroupOfDistinctTools` | internal/finding/finding.go:303-310 | With one distinct tool each: unchanged for one finding, one step above the best for two, confirmed for three or more. |
| `Corroboration.OrderMattersExactlyWhen` | internal/finding/finding.go:289-310 | For every group with known confidences, whatever tools its findings list: some order of it folds to another confidence if and only if nothing is confirmed and either one finding has all the tools and another has not, or no finding has and two potential ones have between them, with a likely one beside them or another pair that grows without having all. |
| `Corroboration.DecidesExactlyWhenContested` | internal/finding/finding.go:199-213 | With one tool for each finding, as adapters make them, this says: there are two tools, each has said potential, one has said likely and nothing is confirmed. |
| `Corroboration.OneToolEachIsSettled` | internal/finding/finding.go:303-310 | With one distinct tool each, the order never matters. |
| `Corroboration.GroupOrderIndependent` | internal/finding/finding.go:289-327 | When the order does not decide the confidence, neither the verdict nor the lists of a folded group depend on it. |
| `Corroboration.RepeatedToolOrderMatters` | internal/finding/finding.go:289-310 | One contested group: its two orders give likely and confirmed. |
| `FindingRecords.MergeUniqueInPlace` | internal/finding/finding.go:391-398 | The result shows the merged list; it lies in the given array when there was room, which then holds the merged list and its old rest, and in a new array otherwise. |
| `SharedSlices.CallerKeepsItsListExactlyWhen` | internal/correlate/correlate.go:34-46 | The list of a caller survives the merging of all later members of its group if and only if the first merge that changes it already moved to a larger array, or the list was sorted and everything merged in place comes after it. |
| `CallersLists.CorrelateGroup` | internal/correlate/correlate.go:34-46 | Correlating one group without shared arrays leaves the caller of its first finding what `CallerSees` says. |
| `CallersLists.CallersListIsReordered` | internal/correlate/correlate.go:40-43 | A run of `Merge` on two findings that sorts the list of the caller of the first, although the copy was meant to prevent it. |
| `CallersLists.CallersListIsReplaced` | internal/correlate/correlate.go:40-43 | A run of `Merge` on three findings that leaves the caller, who listed b, with a alone: the first merge fits and the second moves on. |
| `Correlate.RankedPipeline` | internal/orchestrator/orchestrator.go:396-436 | After correlating, ranking and capping: identities distinct, a second correlation changes nothing, shown plus withheld is the total, and every shown finding is worse, surer or earlier by name than every withheld one. |
| `StoreRecords.JobRecord.Clone` | internal/store/store.go:183-199 | The copy has the same value and arrays of its own for targets, adapters, the flags of every adapter and the two authorisation lists, all new. |
| `StoreRecords.DefinitionRecord.Clone` | internal/store/store.go:137-146 | The copy has the same value and two new arrays. |
| `MergingStore.MergeInto` | internal/store/mem.go:111-126 | Folding new findings into the stored list gives the fold of the values, whatever arrays the incoming records share among themselves; these are only read, and every record and array of the result was the store's own or is new. |
| `MemStore.Mem.CreateJob` | internal/store/mem.go:30-39 | Stores a deep copy under a new identifier, none of whose arrays the caller reaches; a duplicate is refused and changes nothing. |
| `MemStore.Mem.UpdateJob` | internal/store/mem.go:41-49 | Replaces the stored record by a deep copy; an unknown job is refused. |
| `MemStore.Mem.GetJob` | internal/store/mem.go:51-59 | Hands out a deep copy: the record, its arrays and those of its adapters are new. |
| `MemStore.Mem.ListJobs` | internal/store/mem.go:61-74 | Hands out deep copies, newest first, of one workspace or all. |
| `MemStore.Mem.AddFindings` | internal/store/mem.go:76-84 | Merges into the job's list; no record or array of the caller is kept or changed. |
| `MemStore.Mem.GetFindings` | internal/store/mem.go:86-93 | Hands out deep copies of the stored findings. |
| `MemStore.Mem.ActiveJobs` | internal/store/mem.go:95-105 | Counts the jobs that have not ended. |
| `MemStore.Mem.DeleteDefinition` | internal/store/mem.go:178-192 | Removes the definition and its one place in the order. |
| `MemStore.Mem.LastCompletedJob` | internal/store/mem.go:194-198 | Hands out a deep copy of the baseline run. |
| `Store.LastCompletedLoop` | internal/store/store.go:237-251 | The backward walk finds the latest-created completed run of the definition other than the excluded one. |
| `MemSession.Session` | internal/store/mem.go:30-198 | For every sequence of calls, in which records handed out or passed in before are changed arbitrarily, down to the entries of their arrays, and passed in again: each operation carries the values that the picked records show at that moment, a call changes no record of the callers, what it hands out shows the answer, and the answers and the final state are those of the pure store. |
| `FileStore.Open` | internal/store/file.go:33-87 | Opening fails exactly when a directory cannot be made or listed or a job cannot be read; else every decodable job and every readable definition is back, oldest first. |
| `FileStore.File.CreateJob` | internal/store/file.go:135-150 | Writes the document first; only when that succeeds do cache and order change. |
| `FileStore.File.UpdateJob` | internal/store/file.go:152-166 | Same for replacing a job. |
| `FileStore.File.ListJobs` | internal/store/file.go:178-190 | Lists the cache, newest first. |
| `FileStore.File.AddFindings` | internal/store/file.go:192-210 | Reads, merges and writes back, repeated identities in the document included; a failed read or write changes nothing; the caller's records are only read. |
| `FileStore.File.DeleteDefinition` | internal/store/file.go:350-370 | Removes the document, the cache entry and its place in the order, or nothing. |
| `Store.WriteAtomic` | internal/store/file.go:89-118 | A write either replaces the document or leaves the directory as it was, and to a load even if the temporary file cannot be removed, whichever step fails. |
| `Store.CrashShowsOldOrNew` | internal/store/file.go:89-118 | Cut after any of its primitive steps, a write shows a load the old document or the new one, never a torn one. |
| `StoreProofs.FileRefinesMem` | internal/store/file.go:135-376 | Each file-store operation with a safe identifier, disk failures included, answers and moves like the memory store; an operation that reports a disk error changed nothing. What either answers is `StoreTable.FileAnswersAsTable`. |
| `StoreProofs.BackendsAgree` | internal/store/file.go:135-376 | Over every sequence of operations and failures both stores answer alike, up to the signature that is not serialised, and cache and disk agree at the end. What they answer is `StoreTable.MemoryAnswersAsTable`. |
| `StoreTable.MemoryAnswersAsTable` | internal/store/mem.go:30-198 | Over every run of operations the memory store answers as two lists in order of creation do: a record is added at the end, replaced in place, found by its identifier, filtered by workspace, or cut out. |
| `StoreTable.FileAnswersAsTable` | internal/store/file.go:120-376 | So does the file store, over every pattern of disk failures and whatever the identifiers: one that is empty or holds a slash or a dot is refused first and changes nothing. |
| `StoreTable.DefinitionsListedMean` | internal/store/mem.go:165-176 | The definitions listed are exactly those of the workspace, or all for the empty name, once each, in order of creation. |
| `StoreTable.JobsListedMean` | internal/store/mem.go:61-74 | The jobs listed are exactly those of the workspace, or all for the empty name, once each, the newest first. |
| `StoreTable.ReopenedOldestFirst` | internal/store/file.go:62-86 | A reopened store lists every record once, the older first, and the smaller identifier first among equally old ones. |
| `StoreReopen.ReopenRestores` | internal/store/file.go:49-87 | Reopening restores every job and definition, and the same listings and baselines exactly when they were created in (Created, ID) order. |
| `StoreCrash.CrashIsBeforeOrAfter` | internal/store/file.go:89-376 | An operation cut at any primitive step has, for a load, either not begun or been done. |
| `StoreCrash.ReopenRefines` | internal/store/file.go:33-87 | Opened on such a disk, leftover temporary files included, the file store stands where the memory store does after its lists are sorted by creation; that changes nothing exactly when records were created in order. |
| `StoreCrash.BackendsAgreeAcrossRestarts` | internal/store/file.go:33-376 | Over every history of operations, failing writes, crashes at any step and restarts, the stores answer alike, cache and disk agree, and no more is lost than the operation that died. |
| `Delta.Compare` | internal/delta/delta.go:90-151 | The loops over both runs compute the comparison: entries, counts and severity tallies. |
| `Delta.EveryIdentityPlacedOnce` | internal/delta/delta.go:117-147 | Every identity of either run has exactly one entry, with the verdict its two severities call for. |
| `Delta.CountIsClassSize` | internal/delta/delta.go:120-147 | Each counter is the number of identities with that verdict. |
| `Delta.CountsCoverTheUnion` | internal/delta/delta.go:57-60 | The counters add up to the number of identities in either run. |
| `Delta.SwapMirrors` | internal/delta/delta.go:120-147 | Swapping the runs swaps new with resolved and regressed with improved. |
| `Delta.CompareIgnoresOrder` | internal/delta/delta.go:90-186 | The sorted comparison does not depend on the order of either run, with a baseline or without. |
| `DeltaReport.ReportMeans` | internal/delta/delta.go:90-186 | The report against a baseline: the tally before is the baseline's and the one after the current run's; each identity has one entry, with the severity and confidence the baseline gave it; sections in order, the worst first in each; counters are the sizes of the sections. |
| `DeltaReport.FirstReportMeans` | internal/delta/delta.go:101-110 | The report of a first run: every finding is simply present, and nothing is counted as changed. |
| `Siem.Events` | internal/siemexport/siemexport.go:35-59 | The filter sends an opened event for new and regressed entries, a resolved event for resolved ones, and opened for everything on a first run. |
| `Siem.FirstRunOpensAll` | internal/siemexport/siemexport.go:44-57 | After a first run the receiver mirrors exactly that run. |
| `Siem.RunKeepsMirror` | internal/siemexport/siemexport.go:35-59 | A receiver that mirrors the baseline mirrors the current run after its events. |
| `Siem.ReplayExactlyWhen` | internal/siemexport/siemexport.go:35-59 | For an arbitrary receiver: its open identities become those of the current run if and only if it held nothing outside the two runs and everything persistent it missed got worse. |
| `Siem.MirrorsExactlyWhen` | internal/siemexport/siemexport.go:35-59 | For an arbitrary receiver, severities included: it mirrors the current run after its events if and only if it held nothing outside the two runs and everything that persists without getting worse, at no lower severity. |
| `Siem.MirrorsBaselineExactlyWhen` | internal/siemexport/siemexport.go:35-59 | And it mirrors the baseline instead if and only if both runs found the same identities and it held what persists at no lower severity. |
| `Siem.NextRunAfterALateFinish` | internal/orchestrator/definition.go:157-190 | A receiver that shows an older run mirrors the next one if and only if the older run found nothing that both later runs lack, and everything that persists unworsened at its severity; what is not healed stays open, or closed, for good. |
| `SiemTrace.ReceiverMirrorsLatestRun` | internal/orchestrator/definition.go:149-190 | After every history of starts, finishes and aborts in which runs of the definition do not overlap, exactly the findings of its latest completed run are open, none at a severity below the current one. |
| `SiemTrace.BaselineOfFinish` | internal/orchestrator/definition.go:149-167 | A finishing run is compared with the latest-created completed run of its definition, or with nothing on the first. |
| `SiemTrace.LateFinishShowsTheOlderRun` | internal/orchestrator/definition.go:157-166 | When runs overlap, an older run that finishes late leaves its own findings open; they are those of the latest run exactly when both found the same identities. |
| `SiemTrace.FinishMirrorsExactlyWhen` | internal/orchestrator/definition.go:149-190 | After any history, overlapping or not: the first run to finish leaves the receiver a mirror of it; a later one leaves it a mirror of the run that is then the latest if and only if the receiver was ready for the comparison sent and, when the run is not itself the latest, both found the same identities. |
| `SiemTrace.OverlapLosesAFinding` | internal/orchestrator/definition.go:157-166 | A concrete history of two overlapping runs after which nothing is open although the latest run has a finding. |
| `Authz.HashedTextIsUnambiguous` | internal/authz/authz.go:109-116 | The hashed text gives the record back if and only if no field can be mistaken for a separator. |
| `Authz.VerifiesSnoc` | internal/authz/authz.go:82-107 | A log verifies exactly when its prefix does and its last entry is what appending produces. |
| `Authz.SharedHashSharedHistory` | internal/authz/authz.go:82-107 | Without collisions among their texts, two verifying logs that share one entry hash anywhere share position and history up to it. |
| `Authz.SameTipSameLog` | internal/authz/authz.go:82-107 | Two verifying logs are equal if and only if their last entry hashes are. |
| `Authz.LaterEntriesCannotBeKept` | internal/authz/authz.go:64-66 | From the first difference on, no entry of a log can appear anywhere in another log that verifies. |
| `Authz.NormaliseList` | internal/authz/authz.go:284-297 | The loop yields the canonical form of the list. |
| `Authz.NormaliseMembers` | internal/authz/authz.go:284-297 | The canonical form is sorted, without repeats, and holds exactly the cleaned entries. |
| `Authz.NormaliseIsCanonical` | internal/authz/authz.go:284-297 | Two lists have one canonical form if and only if their cleaned sets are equal. |
| `Authz.NormaliseIdempotent` | internal/authz/authz.go:284-297 | Normalising again changes nothing. |
| `AuthzGate.Log.Append` | internal/authz/authz.go:82-91 | The log grows by exactly the linked record and still verifies. |
| `AuthzGate.Log.Verify` | internal/authz/authz.go:94-107 | Verification succeeds if and only if the chain holds, and otherwise names the first broken entry and what is wrong with it. |
| `AuthzGate.Log.Gate` | internal/authz/authz.go:120-179 | The gate's decision is the specified one, and exactly one record is appended if and only if it allows. Whom it lets through is `AuthzScope.AcceptedExactly`. |
| `AuthzGate.InScopeLoop` | internal/authz/authz.go:259-282 | A target is in scope exactly when some entry covers it; for plain hosts, when the address lies in a block or the labels of an entry are the last labels of the name. |
| `AuthzScope.AcceptedExactly` | internal/authz/authz.go:140-282 | Past the form checks a target is accepted if and only if it was asked for, names an asset, and, unless the scope is empty, lies in a block of the scope or ends, label by label, with a name of it. |
| `AuthzScope.UrlIsStripped` | internal/authz/authz.go:231-256 | Of a target written as a URL the gate looks at the host alone: scheme, user, path, query and fragment are stripped. |
| `AuthzScope.PortIsStripped` | internal/authz/authz.go:231-256 | So are a port and one trailing dot. |
| `AuthzScope.HashedTextMeans` | internal/authz/authz.go:109-116 | The hashed text is operator, statement, targets, scope, time and link, in this order behind zero bytes. |
| `Text.UnderMeansLabels` | internal/authz/authz.go:277-279 | For any two names, equal or ending in a dot and the other is the same as ending with its labels. |
| `AuthzProofs.GateAllowsExactly` | internal/authz/authz.go:120-163 | A request is allowed if and only if an operator is named, the statement was accepted, the targets were re-entered as the same set, and one of them clears. |
| `AuthzProofs.GateSplitsTargets` | internal/authz/authz.go:140-178 | Past the form checks every target is accepted or skipped, once, with a non-empty reason; the accepted ones are recorded. |
| `AuthzProofs.GateIgnoresOrder` | internal/authz/authz.go:121-140 | Order, repeats, case and surrounding blanks of the lists do not change the decision. |
| `AuthzProofs.ClearedAgain` | internal/authz/authz.go:120-179 | Resubmitting what was accepted accepts it whole and skips nothing. |
| `AuthzProofs.ReachableLogVerifies` | internal/authz/authz.go:82-179 | Every log reached by any sequence of appends and requests verifies, and what was recorded stays. |
| `AuthzProofs.TipProvesTheHistory` | internal/authz/authz.go:82-179 | Two runs of the gate on plain requests end in one tip if and only if they recorded the same events. |
| `AuthzProofs.CommaTargetsLeaveOneHash` | internal/authz/authz.go:109-116 | Why plain fields are needed: one target with a comma and two targets pass the gate and leave one entry hash, whatever the digest. |
| `Submission.SubmitJob` | internal/orchestrator/orchestrator.go:161-259 | A job is queued if and only if the tier, its limits and the gate allow it and the write succeeds; it carries every field of the request, the authorisation just logged, made out to its operator, and every requested target once, with the reason against those left out; a refusal is a terminal job with a reason per target. |
| `Submission.AllowedOutcomes` | internal/orchestrator/orchestrator.go:231-238 | The outcomes of an allowed request name every cleaned target once, the accepted ones in scope. |
| `Runner.EachSeesAllEarlier` | internal/orchestrator/orchestrator.go:356-388 | Every adapter call sees exactly the validated findings of all calls before it. |
| `Runner.CallsInStageOrder` | internal/orchestrator/orchestrator.go:289-302 | Calls are made in stage order, in whole runs and in cancelled ones. |
| `Runner.RecordsAndCallsMatch` | internal/orchestrator/orchestrator.go:313-377 | One record per visit, in order, and one call per executed visit. |
| `Runner.EveryPairOnce` | internal/orchestrator/orchestrator.go:313-337 | Each adapter that cannot run leaves one record and each other adapter one per target, and no others. |
| `RunnerMeaning.VisitsMean` | internal/orchestrator/orchestrator.go:313-350 | An adapter that can run visits every target; one that misses something, or is an external tool without a licence, is skipped with that reason. |
| `RunnerMeaning.PlanMeans` | internal/orchestrator/orchestrator.go:289-302 | The plan holds the registered adapters of the profile, one for each time it names one, lower stages first. |
| `RunnerMeaning.RecordsMean` | internal/orchestrator/orchestrator.go:356-377 | The records that are not skips tell of the calls one by one, in order: adapter, success, number of findings, reason. |
| `RunnerLoop.Sift` | internal/orchestrator/orchestrator.go:379-388 | The loop over the findings of one call collects and counts the valid ones and notes each other one in the local record. |
| `RunnerLoop.NotesAreLostExactlyWhen` | internal/orchestrator/orchestrator.go:377-384 | The record kept, appended by value before the loop, agrees with the local one after it if and only if no finding was rejected. |
| `RunnerLoop.RunJob` | internal/orchestrator/orchestrator.go:274-440 | A run ends with one terminal write; cancelled, it stops before a call with the records so far; complete, what is stored is the annotated merge, worst first, as many are shown as the tier allows, each accepted target has the number of valid findings of its calls, these add up to all of them, and nothing else of the job changes. |
| `RunnerLoop.PercentMonotone` | internal/orchestrator/orchestrator.go:447-456 | Progress follows the work done. |
| `RunnerLoop.PercentIsFloor` | internal/orchestrator/orchestrator.go:447-456 | It is the whole percentage of the work done, rounded down and held at 99. |
| `RunnerLoop.VisitPair` | internal/orchestrator/orchestrator.go:350-392 | One pair leaves one record, without the notes of its rejected findings, sifts its findings, and moves progress by one step. |
| `RunnerLoop.CountsAddUp` | internal/orchestrator/orchestrator.go:379-433 | The per-target counts written to the job add up to all validated findings. |
| `RunnerLoop.StoredAsRanked` | internal/orchestrator/orchestrator.go:416-419 | Storing the ranked findings stores exactly that sequence. |
| `RunnerMerge.MergeGathered` | internal/orchestrator/orchestrator.go:396-409 | Correlating the gathered findings as records over shared arrays gives what the run ranks and counts if and only if no finding on its own loses the order of its lists. |
| `RunnerMerge.MergeLiterals` | internal/orchestrator/orchestrator.go:396-409 | With lists of their own or sorted literals, as the adapters here have them, it always does. |
| `Schedule.Service.SaveDefinition` | internal/orchestrator/definition.go:30-93 | A definition is stored only past the checks, with the authorisation clock started and the first run one interval away. |
| `Schedule.Service.RunDefinition` | internal/orchestrator/definition.go:96-145 | A disabled or lapsed definition does not run; a run is recorded on the definition only when that write succeeds. |
| `Schedule.Service.RunDue` | internal/schedule/schedule.go:58-107 | One tick gives each listed definition its turn, in order, and counts the runs it could record. |
| `Schedule.Service.Reauthorise` | internal/webui/definitions.go:158-172 | Re-affirming restarts the clock and pulls an overdue schedule forward to now, never back. |
| `ScheduleMeaning.TickMeans` | internal/schedule/schedule.go:58-107 | A tick attempts every definition that is due inside its window, and no other, once; what its entry then says is fixed by how the run and the two writes went: recorded, refused and pushed out by an interval, lapsed, or as before. |
| `ScheduleMeaning.ManualMeans` | internal/orchestrator/definition.go:96-145 | Running by hand starts exactly what is enabled and inside its window, and records it when the write succeeds. |
| `ScheduleMeaning.SaveMeans` | internal/orchestrator/definition.go:30-93 | Saving succeeds exactly within the form and the limits of the tier, and puts the definition last, enabled, affirmed now for ninety days unless it says otherwise, due one interval later. |
| `ScheduleMeaning.AffirmMeans` | internal/webui/definitions.go:158-172 | Re-affirming changes operator, clock, term and reason, and the next run only of a schedule that is overdue or unset. |
| `ScheduleTraces.RunsStartInsideTheWindow` | internal/orchestrator/definition.go:96-111 | In every trace of saves, ticks, manual runs, re-authorisations and deletions on a monotone clock, every run starts at or after the affirmation then in force and strictly before it lapses. |
| `ScheduleTraces.KeptAttemptsAreRespected` | internal/schedule/schedule.go:66-106 | In every trace, whatever submissions and writes fail: after an attempt that left its mark on the definition, no scheduled attempt of it comes within the interval, not even across re-authorisations. |
| `ScheduleTraces.UnkeptAttemptRepeats` | internal/schedule/schedule.go:92-102 | Otherwise nothing changes, and the next tick inside the window attempts again. |
| `ScheduleTraces.LostManualRunIsRepeatedExactlyWhen` | internal/orchestrator/definition.go:135-143 | After a manual run whose definition could not be written, some later tick attempts the definition within the interval if and only if it is already scheduled within it and inside its window. |
| `ScheduleTraces.UnrecordedManualRunIsRepeated` | internal/orchestrator/definition.go:135-143 | A concrete trace: a manual run whose definition cannot be written is followed by a scheduled one two seconds later. |
| `ScheduleTraces.LapseStopsTheSchedule` | internal/schedule/schedule.go:75-90 | Over every trace in which a lapsed definition is not affirmed, saved or deleted: nothing of it is attempted, scheduled or manual, and its only change is the reason, from the first due tick that can write it. |
| `ScheduleTraces.ReaffirmingResumes` | internal/webui/definitions.go:158-167 | The first tick after an overdue definition is re-affirmed attempts it if and only if it comes inside the new window, whatever happens to other definitions in between. |
| `Schedule.WriteIsTheStores` | internal/store/file.go:310-324 | The definition write of the schedule model is the update of both stores. |
| `Evidence.SanitiseValue` | internal/aiclient/evidence.go:75-126 | The recursive loops compute the sanitised value. |
| `Evidence.SanitiseMapLoop` | internal/aiclient/evidence.go:50-73 | The loops over the sorted, cut key list compute the sanitised map. |
| `Evidence.SelectKeys` | internal/aiclient/evidence.go:54-64 | The keys kept are those that spell no secret word, letter for letter in capitals or not, and have fewer than 24 others before them. |
| `Evidence.SecretMeans` | internal/aiclient/evidence.go:28-136 | A key is taken for secret exactly when it spells one of the seventeen words somewhere, in capitals or not. |
| `EvidenceSecrets.SecretsStayHome` | internal/aiclient/evidence.go:46-73 | In what is sent nothing stands under such a key at any depth; of the other keys exactly the first 24 are sent, each with what is shown of its value. |
| `EvidenceSecrets.SanitisedShows` | internal/aiclient/evidence.go:75-148 | What is shown of a value, level by level: texts up to 400 characters, lists up to 12 entries, three levels, a marker for the rest. |
| `Evidence.NonInterference` | internal/aiclient/evidence.go:46-73 | Two evidence maps that differ only under keys that spell a secret word, at any depth, are sent as one. |
| `Evidence.SentEvidenceIsBounded` | internal/aiclient/evidence.go:15-48 | What is sent is JSON without a secret key, within the key, list, string and nesting bounds, and holds at most 24*24*24*12 scalars. |
| `Evidence.IdempotentExactlyWhen` | internal/aiclient/evidence.go:75-109 | Sanitising again changes nothing if and only if no Go list of strings was visited at the deepest level. |
| `Evidence.IdempotentOnJson` | internal/aiclient/evidence.go:46-126 | On JSON-shaped evidence the sanitiser is idempotent. |
| `Headers.SanitiseLoop` | internal/adapters/network.go:247-260 | The loop strips control characters and collapses white space. |
| `Headers.SanitisedValue` | internal/adapters/network.go:247-260 | A cleaned value is printable, trimmed, with single blanks, and cleaning it again changes nothing. |
| `HeaderMeaning.BreaksSeparate` | internal/adapters/network.go:247-260 | White space leaves one blank between the texts on its sides, none where there is no text. |
| `HeaderMeaning.ControlsDrop` | internal/adapters/network.go:247-260 | A control character other than a line break or a tab drops out. |
| `HeaderMeaning.SolidStays` | internal/adapters/network.go:247-260 | Text without either stays as it is. |
| `Headers.FormatHeaders` | internal/adapters/web.go:225-238 | Prints one line per value, keys sorted, without the last line break. |
| `HeaderMeaning.LinesMean` | internal/adapters/web.go:225-238 | The printed lines are exactly name, colon, blank and cleaned value, for each value of each field. |
| `Headers.ParseHeaderBlock` | internal/adapters/web.go:447-463 | Collects the lines with a name under the folded name, values joined in order. |
| `HeaderMeaning.LineAdds` | internal/adapters/web.go:447-463 | A line with a name adds its trimmed value under the trimmed name in lower case, behind what is there; any other line adds nothing. |
| `Headers.ParseOfPrinted` | internal/adapters/web.go:225-463 | Parsing a printed block gives, under any name, the cleaned values of all fields that fold to it, in printed order, except that a lone empty value is read as none. |
| `Headers.HeaderRoundTrip` | internal/adapters/web.go:439-463 | So a field whose name no other folds to comes back with its cleaned values in order, a lone empty value excepted. |
| `OpenPorts.OpenPortsFrom` | internal/adapters/network.go:227-243 | Each open port reported for the target, once, in order of first report. |
| `Versions.SplitVersion` | internal/adapters/vulnsig.go:287-307 | Each component is its leading digits, zero when there are none or they overflow. |
| `Versions.CompareVersions` | internal/adapters/vulnsig.go:263-285 | The loop computes the lexicographic comparison of the zero-padded components. |
| `Versions.CompareIsTotalPreorder` | internal/adapters/vulnsig.go:260-285 | Comparison is antisymmetric in sign, transitive, and zero exactly for versions that agree once padded. |
| `Versions.MatchesAreAnInterval` | internal/adapters/vulnsig.go:189-194 | The versions a signature matches form an interval. |
| `VersionMeaning.ReadsDotted` | internal/adapters/vulnsig.go:287-307 | A version written as numbers and dots is read as those numbers. |
| `VersionMeaning.NumberMeans` | internal/adapters/vulnsig.go:287-307 | A component is the number its leading digits write, and zero without any or past the largest int. |
| `VersionMeaning.SightingsMean` | internal/adapters/vulnsig.go:147-172 | A version is seen exactly where a banner, header, fingerprint or page of the target puts it next to a known name. |
| `VersionMeaning.ReportMeans` | internal/adapters/vulnsig.go:183-222 | It is reported as affected by exactly the signatures whose interval it lies in, and noted exactly when there is none. |
| `Versions.Observe` | internal/adapters/vulnsig.go:147-176 | Every recognised product, version and port is observed once, in order of first sighting. |
| `Versions.Run` | internal/adapters/vulnsig.go:137-224 | What is emitted is, for each observation in order, one finding per matching signature or one informational record. |
| `Versions.EachVersionIsAccountedFor` | internal/adapters/vulnsig.go:183-222 | Of everything emitted, what is about one observed version is exactly that, and nothing is about a version not observed. |
| `Text.SplitJoin` | internal/authz/authz.go:109-116 | Splitting a joined list gives it back if and only if it is not empty and no entry holds the separator. |

## Left out

- Network and process input and output of the adapters, notification and delivery to the SIEM: only which events are
  produced is modelled.
- HTTP handlers (apart from the state change of re-authorising), the dashboard, reports, SVG and CSS.
- SHA-256, Ed25519, JSON encoding and regular expressions: library code.
- Goroutine races: the check-then-create on active jobs, and a stale definition written back after a slow notification.
- Licence tiers beyond the limits checked when saving and submitting; headline, remediation and display texts; control
  mapping tables: they would add only easy members.
- Finding identities (`ComputeID`) and the cut of evidence values in `AddEvidence`: identities are taken as given, and the
  header round trip is about the block before that cut.
- The four host-normalising functions are modelled where they are used; no equivalence between them is claimed.
- Slices start at the first place of their array: a sub-slice from the middle, and a nil slice against an empty one, are
  not told apart.
- Correlation.Merge: requires that no array holds lists of two kinds, say CVEs of one finding and tools of another.
- RunnerLoop.RunJob: correlates the values of the findings gathered; `RunnerMerge.MergeGathered` says when the records
  give the same.
- SiemTrace.ReceiverMirrorsLatestRun: the store writes and reads of a finishing run are taken to succeed, where the
  source goes on without them; `SiemTrace.FinishMirrorsExactlyWhen` covers whatever the receiver holds by then.
- The file store's cache holds values; that it hands out deep copies is shown for the memory store only.
- Findings.FaultText: the note about a rejected finding names the fault without quoting the offending value.
- FileStore.File.ListJobs: requires every identifier of the order list to be in the cache, where the source would fail on a
  nil job; every store reached by operations satisfies it.
- FileStore.File.CreateJob: here and in the other writes, removing the temporary file after a failed write is taken to
  succeed; `Store.WriteAtomic` shows that a load could not tell.
- SurfaceMethod.BuildInPlace: the list of roots is ordered, folded and rolled up as the child list of a vertex of its own.
- RunnerLoop.VisitPair: adapters are taken not to change the findings they are shown; the later write that records the
  baseline of a completed job is a step of `SiemTrace`.
- Versions.Run: titles, descriptions and the evidence text of the findings emitted are not modelled, only which
  signature and observation each is about.
- Evidence.SentEvidenceIsBounded: keys are not cut by the source, so the bound is on scalars, not on bytes.
- Evidence.SelectKeys: keys are compared with the secret words after folding ASCII letters only.
