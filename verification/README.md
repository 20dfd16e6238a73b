# Operator control plane: a verified model

This project models the decision logic of the Hotflow operator control plane in Dafny and proves what
it keeps over whole runs. Six parts of the system are covered.

- **Session memory.** Two memory layers hold entries. Soft compaction replaces all but the newest
  working-memory entry of a session by one summary; hard compaction replaces the whole session memory by
  one summary in layer 1. Summaries are entries again and can be summarised again.
- **Preferences.** Output style, permission mode and response language are kept twice, as current
  metadata and as journal events that carry the value they replaced.
- **Route recovery.** Retry budget, pending reroute and last failed route of an assignment are decoded
  from a free-text note log. Doctor, run explain and onboarding each advise on the same log, and the
  execution service accepts or rejects what they advise.
- **Command lines.** The desktop prints argument records as argv, the client parses them.
- **Skill apply.** A snapshot write and a proposal transition are made one by a compensating revert,
  under faults in every file operation, in the transition and in the audit record.
- **Folds and indexes.** Tool-outcome summaries and runtime status, prompt-section deltas, and the
  resolve-or-create loop for tags.

Code that updates objects or runs loops is written as classes and methods proved against
specification functions (`LayerStore`, `MemoryCore`, `SessionStore`, `SkillFiles`, `TaskPlane`,
`OutcomeCounters`, `TagStore`); the laws are lemmas about those functions. Code made of expressions is
written as functions.

| file | content |
|---|---|
| Sequences.dfy, Text.dfy | list and string operations of the source, with their laws |
| Memory.dfy | entries, the layer store, write routing |
| Compaction.dfy, CompactionLaws.dfy, CompactionRecord.dfy | one compaction: the operation, its effect, and what it takes, records and reports |
| MemoryRuns.dfy, Provenance.dfy | runs of writes, compactions and clears; where summaries come from |
| Sessions.dfy, Preferences.dfy | the session store; preferences against their journal |
| NoteLog.dfy | the note log, its scans and the state machine they decode |
| RouteHealth.dfy, RunExplain.dfy, ExecutionService.dfy | doctor and onboarding; explain; the service and lives of an assignment |
| FlagNames.dfy, Argv.dfy, ArgumentRecords.dfy | flag names; printer and parser; what raw arguments stand for |
| SkillApply.dfy | snapshot files, proposals, apply and rollback under faults |
| RuntimeStatus.dfy, PromptSections.dfy, TagResolution.dfy | the folds and indexes |

## Where the code falls short of the promise

Each of these is a theorem with an exact condition, a concrete counterexample, or both.

- Automatic ids are `l0_N` and `l1_N`, and callers may pass explicit ids. An entry that holds the id a
  summary receives is overwritten by it, whoever owns the entry; and when the entry is one of the sources,
  the summary is removed with them. The laws of one compaction are stated for any memory, with the exact
  condition: `CompactionLaws.MembersAfter` (which entries are there afterwards), `OthersKeptIff` (another
  session is untouched), `MergeShrinks` (one entry comes for those removed), `SummarySurvivesIffIdUnused`.
  `MemoryRuns.TakenIdIsOverwritten` is a reachable memory in which another session loses its entry.
  `MemoryRuns.SummariesGetFreeIds` shows that one rule on callers is enough: no explicit id is an automatic
  id still to be issued. The laws over runs (bounded repetition, provenance) do not need the rule.
- `NoteLog.RetryChargedIffNoteNew`, `ExecutionService.SameRetryUnbounded`: notes are de-duplicated, so a
  retry stamped with the time of an earlier one leaves no trace. After a reroute has reset the budget, any
  number of such retries is accepted. `ExecutionService.BudgetEscaped` is a life from an empty log in which
  they exceed the reroutes by any number; `ExecutionService.RetryBudget` counts them in its bound.
- `ExecutionService.RerouteRefreshesBudget`: for the same reason a repeated reroute note does not reset the
  budget, and the service may then stay on the adapter of the last result while the surfaces show the new one.
- `NoteLog.SourceRecoveredIff`, `NoteLog.RerouteNoteMisread`: an adapter id that contains " to " makes the
  greedy pattern return the wrong source.
- `ExecutionService.RetryAcceptedIff`: without a recorded bridge failure explain says "not allowed" and the
  service retries all the same.
- `ExecutionService.CandidateAcceptedIff`, `ExecutionService.UntrimmedCandidateRejected`: the surfaces offer
  adapter ids as they are and the service trims what it is asked for, so that an approved adapter with white
  space at an end is offered and then rejected.
- `RunExplain.DoctorAgreesWithExplainIff`: a blocked or aborted assignment with a bridge failure would be
  presented differently by doctor and explain. `ExecutionService.LifeStaysSound` shows that no such
  assignment arises as long as executors report bridge failures with status failed.
- `Argv.ListSurvivesIff`: a list is printed as a repeated flag and the parser keeps the last value only.
- `Argv.PositionalLeaks`: a positional value that begins with two dashes becomes a flag.
- `Argv.NormalizingIsStableIff`: a string argument given as an empty list becomes an empty text, which is dropped
  when the record is normalised again.
- `FlagNames.CapitalsInARowCollide`: `runID` and `runId` share a flag.
- `SkillApply.ApplyAtomicIff`: the snapshot write can fail after the head was replaced, outside the
  compensated section; a failing audit record takes the snapshot back from a proposal that stays applied; and
  where an earlier revert has left a version file behind, even a recovery that reports success can restore
  another document than the old head. The shipped telemetry swallows its errors
  (apps/cli/src/bootstrap.ts:60-86), so that the second case needs another telemetry.
- `SkillApply.RetryCommitsTwiceIff`: an apply that fails but leaves its head behind commits again when it is
  repeated. These are the only faults that break at-most-once.
- `SkillApply.StepKeepsVersionsIff`, `SkillApply.LeftVersionShadowsNext`, `SkillApply.LeftVersionBreaksApply`:
  a reverted version whose file could not be removed takes the number of the next apply. A rollback to that
  number then restores the wrong skills, and the next reverted apply makes them the head: a proposal that was
  never applied is in force and the one applied in between is lost.
- `TagResolution.TagKeptIff`, `TagResolution.DefaultTagRenamed`: creating a tag whose slug is the id of
  another tag renames that tag, as "shot size" does with the default tag of that slug.
- `TagResolution.RerunStableIff`, `TagResolution.SharedKeyBreaksRerun`: a tag named like the id of another
  makes a second resolution of the returned ids differ.

## Model

| member | source | states |
|---|---|---|
| Memory.LayerStore.Upsert | packages/memory-core/src/layer0.ts:30-35 | A write replaces the entry of the same id in place, or appends; its own tags and metadata win over those it replaces. |
| Memory.LayerStore.RemoveAll | apps/cli/src/control-plane.ts:2097-2102 | Removing entry by entry removes exactly the entries with those ids and keeps the order of the rest. |
| Memory.MemoryCore.Write1 | packages/memory-core/src/manager.ts:34-42 | A layer-1 write is first given an admission if it has none; one whose admission then says none or quarantine lands in layer 0 and leaves layer 1 alone. |
| Memory.ListingIsStableSort | packages/memory-core/src/layer0.ts:45-49 | Listing is newest first and keeps insertion order among equal times, so together with being a permutation it is determined. |
| Memory.WritesAreAdmitted | packages/memory-core/src/manager.ts:75-176 | Whatever the classifier says, after both kinds of write every entry carries an admission and nothing discarded or quarantined is in layer 1. |
| Memory.UpsertReserved | packages/memory-core/src/layer0.ts:11-35 | A write keeps future automatic ids unused unless it names one, and then an automatic id is fresh. |
| Memory.UpsertReplaces | packages/memory-core/src/layer0.ts:13-35 | A write under the id of an entry keeps its place, id and layer, and its tags and metadata where the write brings none; all else is the write's own and no automatic id is issued. |
| Memory.UpsertAppends | packages/memory-core/src/layer0.ts:13-35 | A write under a new id, or without one, appends an entry with exactly the write's own fields. |
| Compaction.CreateCompactionSummaryEntry | apps/cli/src/control-plane.ts:2266-2329 | Nothing is written unless there are sources and the summary text is cheaper than they are; otherwise exactly the one summary entry is written to the target layer. |
| Compaction.CompactSoft | apps/cli/src/control-plane.ts:2149-2174 | The soft branch leaves memory as the decision function says and reports the removed ids, the summary id or the reason; what it decides and takes is stated by CompactionRecord.OutcomeIff and SourceRecordedIff. |
| Compaction.CompactHard | apps/cli/src/control-plane.ts:2175-2205 | The same for the hard branch, over both layers. |
| Compaction.CompactSessionContext | apps/cli/src/control-plane.ts:2131-2264 | The whole operation: the new memory, the result with counts before and after, and one journal event that carries exactly that result. |
| CompactionLaws.MembersAfter | apps/cli/src/control-plane.ts:2149-2205 | For any memory: the exact entries of both layers after a merge, including what happens to an entry that holds the id the summary receives. |
| CompactionLaws.SoftEffect | apps/cli/src/control-plane.ts:2149-2174 | For any memory: layer 1 is untouched, and layer 0 is the kept entries followed by the summary exactly when the id of the summary is free; the session then has its newest entry and the summary. |
| CompactionLaws.HardEffect | apps/cli/src/control-plane.ts:2175-2205 | For any memory: the session is left with the summary alone, in layer 1, or with nothing exactly when a removed layer-1 entry held its id. |
| CompactionLaws.MergeShrinks | apps/cli/src/control-plane.ts:2207-2224 | For any memory: tokens strictly drop, and one entry comes for the two or more removed, exactly unless the session itself held the id the summary receives. |
| CompactionLaws.CompactionAllOrNothing | apps/cli/src/control-plane.ts:2207-2262 | For any memory: either it is unchanged and a reason is reported, or tokens and entry count strictly drop and the reported numbers are those before and after. |
| CompactionLaws.RemovedAndSurvivorsPartition | apps/cli/src/control-plane.ts:2168-2203 | For any memory: afterwards the session holds the summary, unless a removed entry had its id, and the entries neither removed nor overwritten by it, and nothing else. |
| CompactionLaws.RefusedIffNoTierIsCheaper | apps/cli/src/control-plane.ts:2424-2470 | A non-empty admissible source set is refused exactly when none of the three summary texts costs less than the sources. |
| CompactionLaws.SnippetFits | apps/cli/src/control-plane.ts:2472-2478 | A snippet is one line; it stays within its budget exactly when the budget is four characters or more, or nothing was cut. |
| CompactionLaws.OthersKeptIff | apps/cli/src/control-plane.ts:2131-2205 | For any memory: compacting a session leaves another one untouched exactly when that one does not hold the automatic id the summary receives. |
| CompactionLaws.SummarySurvivesIffIdUnused | apps/cli/src/control-plane.ts:2157-2173 | For any memory, even with repeated ids: the summary survives its own compaction exactly when no removed entry holds the automatic id it receives. |
| CompactionLaws.CompactionStaysUnique | apps/cli/src/control-plane.ts:2131-2264 | Compaction keeps ids unique and entries in their layer, and future automatic ids unused where they were. |
| CompactionRecord.SourceRecordedIff | apps/cli/src/control-plane.ts:2331-2365 | A removed entry is among the source ids of the summary exactly when, in any case of letters, its namespace is not assistant output, no tag is one of the four excluded ones, and its retention is user or, softly, working. |
| CompactionRecord.SourcesRecorded | apps/cli/src/control-plane.ts:2282-2290 | The source ids are those of exactly such removed entries, in order. |
| CompactionRecord.OutcomeIff | apps/cli/src/control-plane.ts:2149-2224 | When a compaction merges and else which reason it reports: too few entries, nothing that may be summarised, or no text that costs less; the reported numbers and removed ids are those of the memory before and after. |
| CompactionRecord.PlainNotesMerge | apps/cli/src/control-plane.ts:2149-2174 | Three plain notes written to an empty memory and classified as working memory are merged by a soft compaction, with the two older ones as sources. |
| CompactionRecord.MergeRecordsSources | apps/cli/src/control-plane.ts:2266-2295 | A summary records strategy and time, each source's id, retention, category and safety, and the layers and namespaces of its sources, each once. |
| CompactionRecord.MostDetailedIsStored | apps/cli/src/control-plane.ts:2424-2470 | The stored text is the most detailed of the three that costs less than the sources. |
| CompactionRecord.ItemsAreShown | apps/cli/src/control-plane.ts:2428-2446 | The detailed text has a line for each of the first four (softly) or three (hard) sources, with number, layer, namespace and snippet, and says how many more there are. |
| CompactionRecord.CountIsShown | apps/cli/src/control-plane.ts:2431-2470 | Each of the three texts says how many entries it merges. |
| CompactionRecord.SnippetIs | apps/cli/src/control-plane.ts:2472-2478 | A snippet is the content with white space collapsed, whole or cut before white space and followed by dots, and as long as fits. |
| CompactionRecord.SummaryTagsIff | apps/cli/src/control-plane.ts:2272-2281 | A summary carries the five tags of its kind and then the sources' tags that are not excluded, each once, twelve at most, and all of them where there is room. |
| CompactionRecord.PayloadReadsBack | apps/cli/src/control-plane.ts:2226-2241 | Reading the journalled payload gives back strategy, numbers and ids of the result. |
| CompactionRecord.ReasonReadsBack | apps/cli/src/control-plane.ts:2226-2241 | The journalled reason is the text of the result's reason, and absent exactly when there is none. |
| CompactionRecord.UnwantedIsNeverSource | packages/memory-core/src/manager.ts:75-113 | Content of a layer-1 write that goes by the classifier's verdict and is dropped, discarded or quarantined is never summarised; quarantined content is stored redacted and, like discarded content, in layer 0. |
| CompactionRecord.SystemWriteIsKept | packages/memory-core/src/manager.ts:115-134 | A layer-1 write that is not taken for the user's is stored there as it is, tagged, safe and with user retention. |
| MemoryRuns.ClearSessionMemory | apps/cli/src/control-plane.ts:2088-2119 | Clearing removes the session's entries from the layers of its scope and reports the counts and ids. |
| MemoryRuns.ClearEffect | apps/cli/src/control-plane.ts:2088-2119 | For every session: only the cleared one, and only in the scope's layers, is emptied. |
| MemoryRuns.CompactionKeepsOthers | apps/cli/src/control-plane.ts:2131-2205 | Over the whole operation: another session is untouched exactly unless a merge takes place and it holds the id of the summary; it never grows. |
| MemoryRuns.SummariesGetFreeIds | packages/memory-core/src/layer0.ts:11-16 | On runs in which no explicit id is an automatic id still to be issued, every summary gets a free id. |
| MemoryRuns.TakenIdIsOverwritten | apps/cli/src/control-plane.ts:2184-2203 | A reachable memory in which a hard compaction overwrites the entry of another session. |
| MemoryRuns.BoundedRepetition | apps/cli/src/control-plane.ts:2149-2205 | Along any run that writes nothing into a session, under any ids, at most one soft and one hard compaction of it change memory. |
| MemoryRuns.NothingAfterHard | apps/cli/src/control-plane.ts:2175-2205 | Once a hard compaction has merged, nothing merges until the session is written to. |
| Provenance.RunStaysTraced | apps/cli/src/control-plane.ts:2266-2365 | Invariant over every run of writes, compactions and clears, under any ids: each summary in memory is faithful to the entries it was made of, however often it was summarised again. |
| Provenance.SummariesOverRuns | apps/cli/src/control-plane.ts:2298-2365 | Retention never escalates; a mixed soft summary is never a source for a hard one; excluded content is never an origin and no summary carries an excluded tag; findings are the origins' findings in order, and the summary is marked safe iff there are none. |
| Provenance.SummaryTagsAreSafe | apps/cli/src/control-plane.ts:2286-2293 | A summary has at most twelve tags, none of them excluded. |
| Preferences.UpdateSessionPreference | apps/cli/src/control-plane.ts:1805-1862 | Sets one preference in the metadata, appends the one matching event with the previous value, and returns both. |
| Preferences.ReadLatestGuidanceControlSummary | apps/cli/src/session-observation.ts:1550-1599 | The backward scan returns the last event that decodes as a preference event, and nothing only if there is none. |
| Preferences.EventRoundTrip | apps/cli/src/session-observation.ts:1550-1599 | What an update journals is what the reader decodes: action, value and previous value. |
| Preferences.JournalledGuidance | apps/cli/src/control-plane.ts:1832-1853 | The guidance an update journals, read back, is each preference of the metadata it leaves, the one just set included. |
| Preferences.RunAgrees | apps/cli/src/control-plane.ts:1805-1862 | Over every run: folding the journal gives the metadata, and each event's previous value is the value before it. |
| Preferences.LatestIsCurrent | apps/cli/src/session-observation.ts:1550-1599 | The value in the event the scan returns is the current value of its preference. |
| Preferences.PreferencesOverRuns | apps/cli/src/control-plane.ts:1864-1968 | From a fresh session, after any run: journal and metadata agree, previous is absent iff no event of the kind came before, and the effective setting is the last one set or else the configured default. |
| NoteLog.FindLastRerouteRequestIndex | apps/cli/src/director-route-health.ts:237-244 | The loop returns the last reroute note's index, or -1 if there is none. |
| NoteLog.FindLastRetryRequestIndex | apps/cli/src/director-route-health.ts:246-253 | The loop returns the last retry note's index, or -1 if there is none. |
| NoteLog.ScansRefineMachine | apps/cli/src/director-route-health.ts:226-260 | For every log the two scans equal the state machine: a retry increments and clears pending, a reroute resets and sets pending, any other note changes nothing. |
| NoteLog.RetryChargedIffNoteNew | packages/director-execution/src/service.ts:1455-1461 | A retry is charged exactly when its note is not in the log yet. |
| NoteLog.FindLastRerouteSource | apps/cli/src/director-route-health.ts:113-130 | The loop returns the source in the last reroute note the pattern matches, and nothing only if none matches. |
| NoteLog.SourceRecoveredIff | apps/cli/src/director-route-health.ts:118-127 | For all adapters and times, the pattern recovers the source exactly when it is a non-empty line, a target follows, and what follows offers no second split. |
| NoteLog.RerouteNoteRoundTrip | apps/cli/src/director-route-health.ts:118-127 | Printing and matching a reroute note gives back the source when target and time have no blanks; the source itself may have some. |
| NoteLog.RerouteNoteMisread | apps/cli/src/director-route-health.ts:118-127 | A target with " to " in it makes the pattern return a different source. |
| NoteLog.SourceAfterReroute | apps/cli/src/director-route-health.ts:113-130 | After a new reroute note the scan names the adapter rerouted from, whatever came before. |
| RouteHealth.CandidatesExact | apps/cli/src/director-route-health.ts:132-141 | Candidates are the approved non-empty adapters other than current and last route, a duplicate-free subsequence in approval order. |
| RouteHealth.FirstCandidate | apps/cli/src/director-route-health.ts:132-141 | The first candidate is the first approved adapter off current and last route. |
| RouteHealth.ConfiguredRouteIs | apps/cli/src/director-route-health.ts:99-111 | The route shown is the selected adapter, else the result's; the test for a pending reroute makes no difference to it. |
| RouteHealth.DiagnosisIff | apps/cli/src/director-route-health.ts:270-342 | The doctor's verdict from the assignment alone: blocked, degraded, reroutable, exhausted or healthy, each exactly when. |
| RouteHealth.CountsPartition | apps/cli/src/director-route-health.ts:143-198 | The five verdict counts sum to the number of entries. |
| RouteHealth.DoctorStatusIsWorstSeverity | apps/cli/src/director-route-health.ts:143-198 | The doctor's status is the join of the entries' severities. |
| RouteHealth.DoctorStatusOrderFree | apps/cli/src/director-route-health.ts:143-198 | The doctor's status does not depend on the order of the entries. |
| RouteHealth.BuildSuggestedCommands | apps/cli/src/control-plane.ts:1287-1322 | The loop with its early exit computes the specified command list; which commands those are is stated by AdviceIff and OnboardingIff. |
| RouteHealth.SuggestionsBounded | apps/cli/src/control-plane.ts:1287-1322 | Commands are distinct: one or two unless the status passes, exactly run-once when it passes with ready work, none when it passes without. |
| RouteHealth.AdviceIff | apps/cli/src/control-plane.ts:1298-1309 | For every assignment: a retry exactly where a retryable failure has no retry counted, else for a failure the first approved adapter off its routes, else a look at the run; the last also where it is blocked, and otherwise nothing. |
| RouteHealth.OnboardingIff | apps/cli/src/control-plane.ts:1287-1322 | For a whole report: the first two distinct commands of the assignments in order, one run of the ready work when nothing needs attention, and else a look at the run. |
| RouteHealth.RetrySuggested | apps/cli/src/control-plane.ts:1298-1303 | A single failed assignment with a retryable failure gets its retry suggested. |
| RunExplain.RenderSuggestions | apps/cli/src/director-run-explain.ts:135-157 | The nested loops emit the suggested commands of the candidates in order. |
| RunExplain.SuggestedIff | apps/cli/src/director-run-explain.ts:135-157 | A command is suggested exactly when some assignment's candidate calls for it. |
| RunExplain.SuggestedForIff | apps/cli/src/director-run-explain.ts:297-339 | From the assignments alone: exactly the retry of each failed or blocked assignment that may be retried, and for every other one, with a bridge failure or without, a reroute to each approved adapter off its routes. |
| RunExplain.DoctorAgreesWithExplainIff | apps/cli/src/director-run-explain.ts:297-325 | With a recorded bridge failure, doctor and explain agree exactly when the assignment is failed and has no blocking reason. |
| RunExplain.AdviceExplainedIff | apps/cli/src/control-plane.ts:1287-1322 | A recovery command onboarding derives from an assignment is listed by explain for it exactly when the assignment is failed. |
| RunExplain.OnboardingWithinExplainIff | apps/cli/src/control-plane.ts:1287-1322 | Over a whole report: a retry or reroute command onboarding derives from a failed assignment is one explain suggests; with distinct assignment ids only those are. |
| RunExplain.HeadlineBackedByCommands | apps/cli/src/director-run-explain.ts:205-224 | The headline announces a safe retry exactly when a retry command is listed, and a reroute only when one is. |
| RunExplain.HeadlineIff | apps/cli/src/director-run-explain.ts:194-224 | The headline of a failed run from its assignments alone, each case exactly when. |
| ExecutionService.CandidateAcceptedIff | packages/director-execution/src/service.ts:402-457 | A reroute candidate the surfaces offer is one the service accepts exactly when, trimmed, it is an approved adapter off the service's route; the two sides resolve routes differently. |
| ExecutionService.UntrimmedCandidateRejected | packages/director-execution/src/service.ts:433-445 | A concrete candidate with a leading blank that the surfaces offer and the service rejects. |
| ExecutionService.ExplainedCommandsAcceptedIff | packages/director-execution/src/service.ts:260-290 | A command explain lists is one the service accepts on an open run, exactly but for reroutes to an adapter that is no route once trimmed. |
| ExecutionService.RetryAcceptedIff | packages/director-execution/src/service.ts:1340-1372 | The service accepts a retry exactly when explain lists one or no bridge failure is recorded. |
| ExecutionService.AcceptsRetryIff | packages/director-execution/src/service.ts:1340-1383 | The service retries on a running, paused or failed run exactly a failed, aborted, blocked or skipped assignment without a bridge failure or with a retryable one and no retry counted. |
| ExecutionService.AcceptsRerouteIff | packages/director-execution/src/service.ts:402-457 | The service reroutes exactly such an assignment, to a trimmed approved adapter off its route, when some approved adapter is also off the adapter of the last result. |
| ExecutionService.RoutesAgreeIff | packages/director-execution/src/service.ts:402-457 | Service and surfaces name the same route exactly unless selected adapter and result name two adapters and no reroute is pending. |
| ExecutionService.RetriedDiagnosis | packages/director-execution/src/service.ts:260-290 | After an accepted retry the assignment has no failure and is not blocked; the doctor finds it healthy, or degraded while the newest reroute note names another source than its adapter. |
| ExecutionService.RerouteRefreshesBudget | packages/director-execution/src/service.ts:459-493 | After any accepted reroute: the surfaces show the new route, a new note resets the budget and a repeated one changes nothing, the exact condition for the service to be on the new route, and for a retry to be allowed again. |
| ExecutionService.LifeStaysSound | packages/director-execution/src/service.ts:763-835 | Invariant over every life of an assignment: the log is clean, a result matches the status, and bridge failures sit on failed assignments without a blocking reason. |
| ExecutionService.RetryBudget | packages/director-execution/src/service.ts:1358-1383 | Over every life, whatever status executors report failures with, retries of bridge failures never exceed reroutes plus one plus the retries whose note was already logged. |
| ExecutionService.SameRetryUnbounded | packages/director-execution/src/service.ts:1455-1461 | After a reroute, retries stamped with an earlier time are never charged: any number of them is accepted. |
| ExecutionService.BudgetEscaped | packages/director-execution/src/service.ts:1340-1383 | A life from an empty log with one reroute and any number of accepted retries of bridge failures. |
| ExecutionService.OneRetryPerRoute | benchmarks/README.md:610 | Per-route reset: from a fresh log, when only bridge failures are retried, the log never shows more than one retry since the last reroute. |
| ExecutionService.SurfacesAgreeOverLives | apps/cli/src/director-route-health.ts:286-320 | After any life in which bridge failures are reported as failed, doctor and explain agree, and what onboarding suggests is listed by explain; the exact condition for the service to accept it. |
| FlagNames.FlagNameInvertsIff | apps/director-desktop/src/desktop-command-catalog.js:1661-1663 | An alphanumeric key is recovered from its flag exactly when every capital follows a small letter or digit. |
| FlagNames.FlagNamesNeverCollide | apps/director-desktop/src/desktop-command-catalog.js:1561 | Distinct such keys never share a flag. |
| FlagNames.CapitalsInARowCollide | apps/director-desktop/src/desktop-command-catalog.js:1661-1663 | Two keys that differ in a second capital do share one. |
| Argv.NormalizeArgs | apps/director-desktop/src/desktop-command-catalog.js:1994-2030 | Arguments are coerced in declaration order; the call fails exactly when a required one is missing or empty, and names it. What coercion means is stated by ArgumentRecords.RecordMeaning and ProvidedIff. |
| Argv.NormalizingIsStableIff | apps/director-desktop/src/desktop-command-catalog.js:1994-2030 | A normalised record handed in again comes back unchanged exactly when no string argument was given as an empty list or a list of one empty text. |
| ArgumentRecords.RecordMeaning | apps/director-desktop/src/desktop-command-catalog.js:1997-2023 | The record holds an argument exactly when its raw input stands for that value: a switch is on for true, "true", "1" and "on" alone; a text is itself; an integer is read after white space and a sign up to the first other character; a text list is split at commas and line ends, trimmed, without blank parts. |
| ArgumentRecords.ListTypedIn | apps/director-desktop/src/desktop-command-catalog.js:2003-2010 | Trimmed, non-empty items without separators, joined by commas, come back as those items. |
| ArgumentRecords.ProvidedIff | apps/director-desktop/src/desktop-command-catalog.js:2024-2028 | A required argument is missing exactly when its input stands for nothing or for an empty text. |
| ArgumentRecords.RawArgumentArrives | apps/director-desktop/src/desktop-command-catalog.js:1548-1579 | From the raw input to the parsed line: the client finds under the flag what the input stands for, and no flag where it stands for nothing. |
| ArgumentRecords.SwitchArrives | apps/director-desktop/src/desktop-command-catalog.js:2018-2021 | A switch that is on is set in the parsed line, and one that is off is absent. |
| ArgumentRecords.PositionalArrives | apps/director-desktop/src/desktop-command-catalog.js:1548-1558 | A text that stands at a position arrives among the positional values. |
| Argv.IntegerReadBack | apps/director-desktop/src/desktop-command-catalog.js:2011-2016 | An integer printed and parsed again is itself, for every integer. |
| Argv.BuildCliArgv | apps/director-desktop/src/desktop-command-catalog.js:1548-1579 | The two loops print words, then positionals, then flags. |
| Argv.ParseArgs | apps/cli/src/director-v1.ts:441-466 | The index loop computes the recursive parser. |
| Argv.LoneFlagIff | apps/cli/src/director-v1.ts:441-466 | A flag on its own is accepted exactly when it is one of the two that take no value. |
| Argv.ArgvRoundTrip | apps/cli/src/director-v1.ts:441-466 | Fail-closed: parsing the printed line fails exactly when a flag value begins with two dashes; otherwise words and positionals come back and each flag holds the value of the last argument on it. |
| Argv.ArgvRoundTripIff | apps/director-desktop/src/desktop-command-catalog.js:1548-1579 | Every argument's value (of a list, its last item) comes back under its own flag, and nothing else, exactly when no word, positional or value begins with two dashes, booleans are printed exactly under the flags that take no value, and no two arguments put different values on one flag. |
| Argv.ArgvWholeRoundTripIff | apps/director-desktop/src/desktop-command-catalog.js:1548-1579 | The whole record, with every list item, comes back exactly under those conditions and when no list has more than one non-empty item. |
| Argv.ListSurvivesIff | apps/director-desktop/src/desktop-command-catalog.js:1565-1577 | What the parser hands back of a list argument is the list exactly when it has at most one non-empty item. |
| Argv.PositionalLeaks | apps/cli/src/director-v1.ts:441-466 | A dashed positional value is stored as a flag. |
| Argv.RequiredArgumentReadBack | apps/cli/src/director-v1.ts:468-499 | From the desktop's text argument to the client's read: the text comes back trimmed; a blank one counts as missing and the client falls back to the positional at its index. |
| Argv.DerivedFlagsAreDistinct | apps/director-desktop/src/desktop-command-catalog.js:1561 | When flags are made from keys, distinct camelCase keys give distinct derived flags, so that no two arguments clash as the round trip asks. |
| SkillApply.ApplyProposal | apps/cli/src/control-plane.ts:547-592 | World and outcome after an apply, for every combination of faults; what the new head holds is stated by DoneKeepsOtherSkills, when it succeeds by OutcomeIff. |
| SkillApply.DoneKeepsOtherSkills | packages/skills/src/safe-apply.ts:75-95 | After a successful apply a skill is in the head exactly when it is the proposal's, or it was in force under another id; known ids keep their place; version, predecessor, origin and proposal status are as they should be. |
| SkillApply.KeyedContents | packages/skills/src/safe-apply.ts:77-82 | The map of approved skills holds each id once, in order, with its last skill. |
| SkillApply.FirstApply | packages/skills/src/safe-apply.ts:75-95 | From an empty disk the head is exactly the one skill. |
| SkillApply.OutcomeIff | apps/cli/src/control-plane.ts:547-592 | An apply is refused, and changes nothing, exactly unless the proposal is accepted and carries a skill; it succeeds exactly when besides no file operation before the head, no transition and no audit fails. |
| SkillApply.AcceptedProposalIsApplied | apps/cli/src/control-plane.ts:547-592 | A proposal that is enqueued, accepted and applied ends up applied, with its skill in the head. |
| SkillApply.FinalStays | packages/tasks-core/src/task-operations.ts:52-64 | A rejected, expired or applied proposal never changes again. |
| SkillApply.SkillFiles.WriteApproved | packages/skills/src/file-store.ts:115-159 | A write archives the old head if needed, replaces the head and archives the new one; a fault leaves what was done so far. |
| SkillApply.RevertUndoesWrite | packages/skills/src/safe-apply.ts:120-135 | Reverting a completed write gives back the head and every version readable before, exactly when the head's own version file holds the head and no file had the new version. |
| SkillApply.ApplyAtomicIff | apps/cli/src/control-plane.ts:558-590 | For every fault and every disk that faults can lead to: an apply is both-or-neither exactly when it is compensated, a condition on the fault and two version files. |
| SkillApply.ValidDiskCompensated | apps/cli/src/control-plane.ts:558-590 | With no version left behind the fault alone decides. |
| SkillApply.LeftVersionBreaksApply | packages/skills/src/safe-apply.ts:120-135 | Three applies after which a proposal still accepted is in force and an applied one is lost, although the last fault is covered and its recovery reports success. |
| SkillApply.CommitCases | apps/cli/src/director-skills.ts:187-201 | Under every fault: a commit happens from accepted only, and ends in applied, which is final, or the apply left its head behind and the proposal is still accepted. |
| SkillApply.CommitsCounted | apps/cli/src/control-plane.ts:558-590 | Over every run, under any faults: the commits of a proposal are the applies that left their head behind and at most one more. |
| SkillApply.CommitsAtMostOnce | apps/cli/src/director-skills.ts:187-201 | Over every run whose faults leave no head behind a proposal's snapshot write commits at most once, and never once it is applied. |
| SkillApply.RetryCommitsTwiceIff | packages/skills/src/file-store.ts:145-159 | From any applicable state, an apply with a fault and then one without commit the same proposal twice exactly when the first left its head behind. |
| SkillApply.StepKeepsVersionsIff | packages/skills/src/file-store.ts:115-206 | For every fault and every disk that faults can lead to: the exact condition for an operation to lose no readable version. |
| SkillApply.StepKeepsVersions | packages/skills/src/file-store.ts:115-206 | On a disk with no version left behind nothing is lost, and it stays so exactly unless this operation leaves one. |
| SkillApply.VersionsNeverChange | packages/skills/src/file-store.ts:115-206 | Over every run that leaves no reverted version behind, what was readable stays readable with the same content. |
| SkillApply.RollbackToAny | packages/skills/src/safe-apply.ts:97-118 | On every disk that faults can lead to, a rollback to a version succeeds exactly when there is a head and a file of that version, and makes the skills of the file the head under a new version. |
| SkillApply.RollbackOverRuns | packages/skills/src/safe-apply.ts:97-118 | Whatever happened since, under any faults, a rollback to a version up to the head that had a file gives its skills back. |
| SkillApply.LeftVersionShadowsNext | packages/skills/src/file-store.ts:177-206 | With a reverted version left behind, the next apply has the same number, and a rollback to it restores the reverted skills. |
| SkillApply.WithSkillContents | packages/skills/src/safe-apply.ts:75-95 | An upsert replaces the skill of the same id and keeps all others. |
| RuntimeStatus.SummarizeStepReplay | apps/cli/src/session-observation.ts:1372-1387 | The counter loop computes the tally of all outcomes. |
| RuntimeStatus.SummaryIsHomomorphism | apps/cli/src/session-observation.ts:1372-1387 | The summary of concatenated replays is the field-wise sum. |
| RuntimeStatus.TotalCountsEveryResult | apps/cli/src/session-observation.ts:3208-3238 | The total is the number of results, an entry without results counting one. |
| RuntimeStatus.SummaryCounts | apps/cli/src/session-observation.ts:3208-3275 | Every field of a summary is the number of results that count as it names: by resolution, else by degradation, else by ok. |
| RuntimeStatus.OverallStatusIff | apps/cli/src/session-observation.ts:3240-3312 | The status of a turn from results and evidence: failed, else blocked, else degraded, else healthy, each exactly when. |
| RuntimeStatus.OverallStatusOfParts | apps/cli/src/session-observation.ts:3277-3312 | The combined status of a turn is the join of the statuses of its parts, wherever it is cut. |
| RuntimeStatus.OverallStatusOrderFree | apps/cli/src/session-observation.ts:1389-1400 | The combined status does not depend on the order of replays or evidence. |
| PromptSections.ResolvePromptBuildSelection | apps/cli/src/session-observation.ts:2296-2365 | Selects the requested or last build with its predecessor, or reports no evidence, a missing step or malformed data. |
| PromptSections.SelectedIff | apps/cli/src/session-observation.ts:2319-2365 | The selection is the last build, or the last one of the requested step, with the build recorded before it; it fails exactly when one of the two is malformed, and says which. |
| PromptSections.SomethingSelectedIff | apps/cli/src/session-observation.ts:2305-2328 | Something can be selected exactly when there are builds and the requested step is one of theirs. |
| PromptSections.AvailableStepsExact | apps/cli/src/session-observation.ts:2315-2317 | The available steps are sorted, duplicate-free and exactly those of the builds. |
| PromptSections.MissingIffNotAvailable | apps/cli/src/session-observation.ts:2319-2328 | A requested step is missing exactly when it is not among the available ones. |
| PromptSections.DeltasReplay | apps/cli/src/session-observation.ts:2409-2419 | Applying the reported deltas in evidence order from nothing rebuilds the dynamic and the omitted sections at every build. |
| PromptSections.DeltaExact | apps/cli/src/session-observation.ts:2409-2419 | A delta adds only what was absent, removes only what was present, and is empty exactly when the section sets are equal. |
| TagResolution.TagStore.UpsertTag | packages/director-knowledge/src/experience-taxonomy.ts:150-169 | A blank name fails and changes nothing; otherwise the tag with the slug of the name replaces any tag of that id. |
| TagResolution.ResolveOrCreateTagIds | apps/cli/src/director-knowledge.ts:1842-1868 | The loop with its map computes: each value goes to the last seen tag that claims its key, or to a new one; ids are returned once, in first-occurrence order; a failure keeps the tags created so far. What a key identifies is stated by LookupAgreesIff. |
| TagResolution.LookupAgreesIff | apps/cli/src/director-knowledge.ts:1866-1868 | Two texts have one key exactly when, trimmed, they agree character by character up to ASCII case. |
| TagResolution.MissingIff | apps/cli/src/director-skills.ts:426-448 | A value is missing exactly when it agrees in that sense with no id and no name of the snapshot. |
| TagResolution.CreatedIffNothingMatches | apps/cli/src/director-skills.ts:426-448 | Something is created exactly when some value agrees with no tag of the snapshot. |
| TagResolution.KnownValuesAnswered | apps/cli/src/director-skills.ts:426-448 | Values that each agree with a tag of the snapshot create nothing and are answered by such tags. |
| TagResolution.CaseIsIgnored | apps/cli/src/director-skills.ts:464-466 | "NOIR" resolves to the tag "Noir" and creates nothing. |
| TagResolution.EveryValueCovered | apps/cli/src/director-skills.ts:426-448 | Each value's tag matches it by id or name, its id is in the store and in the result, and the result has no duplicates. |
| TagResolution.CreatedAsPlanned | apps/cli/src/director-skills.ts:437-446 | Told from the snapshot and the values alone: which names the call creates, in which order, and whether it fails. |
| TagResolution.MissingNamesCreated | apps/cli/src/director-skills.ts:437-446 | Every name the snapshot has no tag for ends up with a created tag that matches it, and only such names are created. |
| TagResolution.NamesCreatedOnce | apps/cli/src/director-skills.ts:437-446 | No two created names share a key. |
| TagResolution.FailsIff | packages/director-knowledge/src/experience-taxonomy.ts:402-408 | The call fails exactly when a value is blank and no tag of the snapshot has a blank key. |
| TagResolution.TagKeptIff | packages/director-knowledge/src/experience-taxonomy.ts:332-339 | A tag of the store survives unchanged exactly when none of the names the call will create has its id as slug. |
| TagResolution.TagRenamedIff | packages/director-knowledge/src/experience-taxonomy.ts:332-339 | Where values that resolve to one new tag have one slug, a tag is renamed exactly when some missing value has its id as slug. |
| TagResolution.DefaultTagRenamed | packages/director-knowledge/src/experience-taxonomy.ts:102-104 | The default tag with id shot-size loses its name to the value "shot size". |
| TagResolution.RerunStableIff | apps/cli/src/director-knowledge.ts:1848-1866 | Resolving stored ids creates nothing and returns them unchanged exactly when no later tag and no tag earlier in the list claims the key of one of them. |
| TagResolution.ResolvingIsIdempotent | apps/cli/src/director-knowledge.ts:1842-1868 | For every first resolution: resolving its result again creates nothing, and gives the same list when no two tags share a key. |
| TagResolution.SharedKeyBreaksRerun | apps/cli/src/director-knowledge.ts:1848-1866 | Two tags that share a key for which the second resolution gives a different list. |

## Left out

- Strings are sequences of UTF-16 code units; lower-casing covers ASCII only. That is exact for the excluded tags, the namespace and camelCase keys, not for tag names in other scripts.
- The classifier that judges memory writes without an admission record (heuristics on natural language) is a parameter; what the layers do with its verdict is modelled. The runs range over arbitrary drafts as they reach the layers.
- Memory entries: agent and thread scope, creation time, confidence and score are not modelled; retrieval and ranking are not part of this model.
- Automatic ids are counted per store; the source counts them per process, which is the same for one memory manager.
- Archived sessions, for which appending to the journal throws, are not modelled.
- A source marked unsafe without any finding: the summary's safety follows the findings alone, as in the code, and is stated over findings.
- The effective-guidance views of status and step snapshots (control-plane.ts:1936-1968) reduce to the overlay proved in Preferences.PreferencesOverRuns.
- Assignments: role, handoff, approvals, dependencies and time-outs are not modelled; one nondeterministic administrative step stands for approve, advance, block, reopen, skip, time out and abort.
- Run-level status and events, the holding-state wording, next-action texts and the operator surface are not modelled.
- LifeStaysSound: lives in which executors report a bridge failure with another status than failed are not covered, and so neither by SurfacesAgreeOverLives; nothing in the service rules them out.
- RetryBudget: executors and administrators are taken not to write notes with the two prefixes themselves, here and in the other theorems over lives; such a note is counted like the operator's.
- OneRetryPerRoute: retries of assignments without a recorded bridge failure are not governed by the budget; RetryBudget states the bound that holds with them.
- TagRenamedIff: assumes that values resolving to one new tag have one slug, which the fallback slug of names without Latin letters or digits does not give for different spellings; TagKeptIff has no such assumption.
- NormalizeArgs: numbers are unbounded integers, so the rounding of very long digit strings is not modelled.
- The static command table, help texts and the Electron bridge are not modelled; a command is its words and its argument map. Its flags are taken to begin with two dashes.
- Skill validation is one bit per proposal (it decodes to a valid skill or not); file formats and atomic renames are not modelled.
- Decoding of prompt-build evidence and of step-replay payloads from stored JSON is not modelled; a malformed build is one without payload. DeltasReplay is stated for well-formed builds in evidence order.
- Slugs of tag names are an arbitrary function; descriptions, colours, times and the stored order of tags are not modelled. A snapshot may list the tags in any order.
- File, database, HTTP and window code, the sandbox runner, the live-runner executor and text heuristics are not part of this model.
