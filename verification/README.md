# Verification model of case investigation

A retail support case collects evidence about one customer, reconciles it into a timeline and
uncertainty flags, explains it by competing hypotheses, and is then driven by a next-best-action
engine through analysis, recovery, notice and closure, with human approvals and an append-only
audit log. This project models that machinery and proves what the parts promise together.

The model has three layers.

* `CaseSession.Session` is the program's own form: a class whose fields are the tables and the
  case's columns, and whose methods ingest, assemble, detect, generate, decide, execute, approve
  and drive, with the loops of the source. Every method is proved equal to a function on values.
* The rules (`FlagRules`, `DecisionRules`, `DecisionEffects`, `GenerationRules`, and the theorems of
  `ExecutorTheorems`) say, over the bare rows and with every number, role and category written out,
  what a sweep, a decision, a generation and an execution do. The functions are proved to follow
  them exactly, both ways where that makes sense.
* The functions (`CaseState`, `EvidenceStore`, `Timeline`, `Uncertainty`, `HypothesisMerge`,
  `HypothesisEngine`, `Confidence`, `RecoveryCatalog`, `NbaEngine`, `Executor`, `Approvals`,
  `Orchestrator`, `AuditReplay`) say what one call does to a case. `Runs` lets all of them, and
  entries of other cases, interleave in any order, with everything the environment decides as
  an input: deliveries, the storage order behind a query without ORDER BY, language-model
  proposals, computed exposures, connector answers, raised flags, approvers. A valid session is
  by definition in a state such a run reaches, so every theorem about `Runs.Case` is about it.

The results, hardest first:

1. **What replay tells of the live state** (`ReplayTheorems`). For every run, folding any prefix of
   the audit log gives the live stage, hypotheses, decided approvals and known actions of the moment
   right after its last write. It names the status of every action too, but for two failures that
   are characterised exactly: an action carried out inline (analysis, closure) is never named as
   succeeded, and at the stage entry an execution writes between setting its action's final status
   and logging it, that one action's history is an event short. Between operations an action's kind,
   history and decision together always determine its status. For any `as_of` the trail query selects
   such a prefix, if the case's entries were stamped in write order (`AuditReplay`). Superseding
   hypotheses is not logged at all: `BatchReplay` says what the log leaves open about it.
2. **Actions are safe over all interleavings** (`ActionTheorems`): one live action, distinct
   decisions, approvals in step with their actions, no connector call on a gated action without its
   own granted approval by a permitted role in the log before, one live or succeeded recovery over
   all hypotheses, closure after a succeeded notice after a succeeded recovery, and the trace law of
   attempts.
3. **The drive loop ends by itself** (`CaseCycle`): within eight steps, so the bound of twelve
   never cuts in, as long as open flags are listed in insertion order. Listed in any order, a loop
   that the bound cuts off leaves eight open MISSING flags (`OpenGaps`, `WholeAdvances`), and with
   eight it can be cut off (`TightBound`).
4. **Finite work per hypothesis** (`FiniteWork`) and the **rejection walk of the engine**
   (`RefusalWalk`), from the catalog's order down to real refusals and failures.
5. **Why it stops, and what stays** (`DriveOutcome`, `Finality`): driving stops only at a closed or
   used-up case, a human's turn or a request that has gone out; what is settled never changes.
6. **Branch order, stage and status** (`Prudence`, `Milestones`, `EarnedStages`, `Bookkeeping`,
   `StatusFit`): remedies only after analysis and the systemic check, at the price and with the gate
   their exposure calls for; a stage is asked for exactly when the rows earn it, is behind them only
   after a re-evaluation, and never moves without an entry that says so; the log lists every tool
   execution, assessment and flag once and in order; the status says which action is in flight.
7. **Evidence and timeline** (`EvidenceStore`, `FactUniqueness`, `Timeline`, `TimelineFreshness`):
   conservation of the versioned store, when facts stay unique, the bijection of timeline and current
   evidence, and when no event is left behind.
8. **Flags and hypotheses** (`Uncertainty`, `HypothesisTheorems`, `GenerationRules`): exact and
   sweep-independent detection, re-evaluation on a shift either way, one active batch whose best is
   primary, row-order independence of the templates and when it extends to the primary (`FlagOrder`),
   merge as an incremental fold, the arithmetic of confidence with its four-digit rounding, and how
   many records acting takes (`Corroboration`).

Where the code does not do what its comments say, the model follows the code, a lemma shows the
input and another says exactly when the comment holds:

| comment | fails for | holds exactly when |
|---|---|---|
| folding the log is the state, `backend/app/audit/replay.py` | `SettledAnalysisReplaysAsProposed`, `ReplayCanLag` | `ReplayIsLiveStateAtEveryWrite`, `ReplayIsLiveStateNow` |
| superseding a hypothesis writes an audit entry, the repository's own `README.md` | `OneGenerationOrTwo` | `BatchesAreNotLogged`, `SingleEntryTellsTheBatch` |
| one supporting record never exceeds one half, `backend/app/engine/hypothesis_engine.py` | `OneRecordCanReachTheThreshold` | `OneRecordReaches`, `ActingTakesTwoRecords` |
| keys are unique among rows not superseded, `backend/app/models/evidence.py` | `TwoCurrentFactsForOneKey` | `UniqueFactIffSteady`, `OneRowIffNothingRepeated` |
| a correction updates its event, `backend/app/reconciliation/reconciler.py` | `TwoCorrectionsAreToldTwice` | `FreshIffOneHopEach` |
| remedies from the threshold on need approval, `backend/app/engine/recovery_catalog.py` | `RerouteEscapesApproval` | `ApprovalGate` |

Nothing in the code says so, but an option that manual review parked is offered again to a later
hypothesis (`ParkedOptionIsOfferedAgain`), and only then (`OptionReusedOnlyAfterReview`).

Numbers are integers: link weights in tenths, confidence in ten-thousandths, money in cents, time
in seconds; `round` is to the nearest with ties to even. Ids are positions in tables. The hash in
an idempotency key is taken to be injective.

`dafny verify dfyconfig.toml` checks the whole project.

## Model

| member | source | states |
|---|---|---|
| ReplayTheorems.ReplayIsLiveStateAtEveryWrite | backend/app/audit/replay.py:1-62 | over every run, the replay of any log prefix has the live stage, hypotheses, decisions and known actions right after its last write; it names an action's status iff the action was not settled inline and the write does not run ahead of it, and is exact iff neither occurs |
| ReplayTheorems.ReplayIsLiveStateNow | backend/app/audit/replay.py:1-62 | between operations an action's last replayed event, with its approval's decision, names its status iff its kind is not carried out inline; kind, history and decision together always determine it; all else is as live |
| ReplayTheorems.ReplayAsOf | backend/app/audit/replay.py:20-62 | with the case's entries stamped in write order, for any as_of, whatever the ordered query answers folds to what the case's last write by then had to tell |
| ReplayTheorems.ReplayRecoversEveryPastState | backend/app/audit/replay.py:30-62 | the log as it stood after any earlier operation is a prefix of the final log and tells the tables of that moment |
| Witnesses.SettledAnalysisReplaysAsProposed | backend/app/engine/nba_engine.py:218-246 | a reachable case at rest, nothing written ahead, in which a succeeded analysis and a remedy just proposed both replay as proposed |
| AuditReplay.TrailInWriteOrderIff | backend/app/audit/replay.py:24-27 | every answer of the ordered query is in write order iff the case's selected entries are stamped in that order, no two alike |
| AuditReplay.TrailFoldsPrefix | backend/app/audit/replay.py:20-27 | the selected entries then fold like the prefix of the log written by as_of |
| AuditReplay.GetCaseAuditTrail | backend/app/audit/replay.py:20-27 | each selected entry of the case once, in timestamp order, for any timestamps |
| AuditReplay.AnswersAre | backend/app/audit/replay.py:20-27 | an answer is exactly the case's rows that occurred by as_of, that time included, each once, by when they occurred and then when they were created |
| AuditReplay.ReplayCaseState | backend/app/audit/replay.py:30-62 | the loop with its three dictionaries computes the fold of the trail, which is the log prefix by as_of when entries are stamped in write order |
| AppendOnly.PlayExtends | backend/app/audit/service.py:11-34 | the log is append-only and no row ever loses or changes anything but its status or superseded mark |
| Runs.AdvanceIsPlayed | backend/app/engine/orchestrator.py:14-20 | an advance is a decision followed by running what it answered if ready |
| Runs.ApplyKeeps | backend/app/engine/orchestrator.py:14-20 | every operation keeps action safety, the log in step, the hypothesis invariant and the evidence store's laws |
| Runs.CaseHolds | backend/app/engine/case_service.py:43-72 | those invariants hold in every state any run of a new case reaches, whatever evidence was on record when it was opened |
| ActionTheorems.OneLiveActionDistinctKeys | backend/app/engine/nba_engine.py:114-164 | of two actions the older is rejected, succeeded, failed or in manual review, and their idempotency keys differ |
| ActionTheorems.ApprovalsInStep | backend/app/approvals/service.py:32-47 | an approval is pending iff its action is pending approval, one approval per gated action |
| ActionTheorems.GatedExecutionsWereGranted | backend/app/engine/orchestrator.py:14-20 | a connector call on a gated action is preceded in the log by its granted approval, decided by an admin or literally the role it requires, before it started executing |
| ActionTheorems.DecisionsWereAllowed | backend/app/approvals/service.py:30-36 | over every run, whoever decided an approval was an admin or had the role it requires: finance for reversals and refunds, a supervisor for all other remedies |
| ActionTheorems.CostlyRemediesWereSignedOff | backend/app/engine/nba_engine.py:286-316 | every executed remedy of 75 dollars or more, or exceptional, had its own approval granted before it started, by finance for a reversal or refund, by a supervisor for any other, or by an admin; a rerouting alone is excepted |
| ActionTheorems.OneRecovery | backend/app/engine/nba_engine.py:275-284 | of two recoveries, under whatever hypotheses, the older was rejected, failed or went to manual review |
| ActionTheorems.OptionReusedOnlyAfterReview | backend/app/engine/nba_engine.py:276-316 | two recoveries share an option only if the older is in manual review and their hypotheses differ |
| ActionTheorems.AtMostElevenRecoveries | backend/app/engine/nba_engine.py:276-316 | recoveries outside manual review number at most eleven |
| ActionTheorems.ClosureFollowsNoticeFollowsRecovery | backend/app/engine/nba_engine.py:323-377 | a notice names an earlier succeeded recovery and a closure follows a succeeded notice |
| ActionTheorems.OneNoticeOneClosure | backend/app/engine/nba_engine.py:250-377 | at most one notice, one closure and one escalation per case |
| ActionTheorems.ClosingHasItsRecovery | backend/app/engine/nba_engine.py:343-363 | when closing is chosen, the succeeded recovery it dereferences exists and no closure was made before |
| ActionTheorems.ExecutionTraceLaw | backend/app/tools/executor.py:69-142 | attempts are numbered from 1, at most three, only the last succeeding; succeeded or manual review iff it did, failed iff all three failed; never two successes |
| ActionTheorems.AuditedHistoryIsPrefix | backend/app/tools/executor.py:53-157 | at any point of the log an action's audited history is a prefix of proposed, executing, one final event |
| ActionSafety.DecideKeepsSafe | backend/app/engine/nba_engine.py:156-379 | a decision keeps action, approval, execution and impact tables safe |
| ActionSafety.ExecuteKeepsSafe | backend/app/tools/executor.py:42-157 | an execution of a ready action keeps them safe whatever the connector answers |
| ActionSafety.DecidedKeepsSafe | backend/app/approvals/service.py:22-60 | an approval decision keeps them safe |
| ActionSafety.ChoiceWarranted | backend/app/engine/nba_engine.py:181-350 | whatever is chosen, the conditions its branch must have checked hold |
| ActionSafety.AnalysisIsFresh | backend/app/engine/nba_engine.py:217-246 | an analysis is always new, adds one assessment and leaves one succeeded row |
| ActionSafety.ClosureIsFresh | backend/app/engine/nba_engine.py:340-377 | a closure is always new and leaves one succeeded row and a closed case |
| ActionSafety.ExecuteEffect | backend/app/tools/executor.py:69-157 | an execution appends the attempts made, settles its action and touches no other action table |
| ActionSafety.ReadyRunsNow | backend/app/tools/executor.py:43-49 | an action about to be executed has no attempt on record, so the success guard never stops it |
| ActionSafety.AttemptsAreOrderly | backend/app/tools/executor.py:69-142 | the attempts made fit the status they end in, for any connector |
| ActionTable.MoveKeeps | backend/app/engine/nba_engine.py:114-164 | moving the live row to a status its row permits keeps the table's laws |
| ActionTable.AppendKeeps | backend/app/engine/nba_engine.py:114-164 | so does appending an admissible row when nothing is live |
| Executor.Made | backend/app/tools/executor.py:69-124 | attempts stop at the first success or at three |
| ExecutorTheorems.ExecutionFilesItsAnswer | backend/app/tools/executor.py:126-142 | a success files every delivery of its last answer, in order and field by field, under the case's customer; a failure files nothing |
| ExecutorTheorems.ExecutesUnlessSucceeded | backend/app/tools/executor.py:43-49 | an execution does nothing at all iff an attempt at its action had succeeded |
| ExecutorTheorems.ExecutionFollowsAnswers | backend/app/tools/executor.py:53-157 | one row for each attempt made, numbered from one: timed out, failed or succeeded as the connector answered; the action ends as the last answer says, which is the last entry; a success asks for the stage of its kind, a failure for none |
| Prudence.RemediesAreAlwaysPrepared | backend/app/engine/nba_engine.py:217-316 | over every run, a remedy comes after the analysis of its hypothesis and, for each of the four categories, after an escalation or with an incident on record, not superseded, when it was proposed; it is one of its category's remedies, at the price and with the gate the assessed exposure calls for; an escalation is only for an analysed hypothesis of one of the four, with no incident on record |
| Prudence.RemedyOfferedLast | backend/app/engine/nba_engine.py:58-63 | a remedy for one of the four categories is only offered after an escalation or with an incident on record, and with confidence from 0.6 on or no open gap |
| Prudence.EscalationOfferedWhen | backend/app/engine/nba_engine.py:257-272 | an escalation is only offered for an analysed hypothesis of one of the four, with no incident on record |
| Prudence.EscalationComesNext | backend/app/engine/nba_engine.py:257-272 | and always offered then, the first time |
| DecisionRules.EngineFollowsTable | backend/app/engine/nba_engine.py:156-379 | whatever the rows of a case, a choice is one a table of rules over those rows allows iff the engine makes it for some listing of the flags |
| DecisionRules.BestIsNext | backend/app/engine/recovery_catalog.py:26-154 | the next option is the first of the category's codes, exceptional remedy and apology not turned down, at the price, to the nearest cent, with the gate and the approver written out |
| DecisionEffects.DecisionTakesEffect | backend/app/engine/nba_engine.py:95-379 | a decision hands back the action in flight, noting a postponed re-evaluation, or clears the mark and adds exactly the row, approval, status, assessment and stage request the table's choice calls for |
| DecisionEffects.KeysTellDecisions | backend/app/engine/nba_engine.py:68-70 | two targets have one idempotency key iff they are the same decision; a price makes no difference |
| Bookkeeping.CaseIsBooked | backend/app/audit/service.py:11-34 | over every run, the stage moves only with an own entry that says so, forward on the journey or back by a re-evaluation, and the case's entries list every execution as it is, and every assessment and flag, once and in order |
| EarnedStages.AskedIffEarned | backend/app/engine/stage.py:18-44 | over every run, a stage has been asked for iff rows show it was reached, JOURNEY_ASSEMBLED only if the case has had a fact on record; so the stage of a case is one its rows earned |
| EarnedStages.ReconcilingAsks | backend/app/reconciliation/reconciler.py:361-371 | a reconciliation asks for JOURNEY_ASSEMBLED iff the case has current evidence, and for nothing else |
| Milestones.StageKeepsUp | backend/app/engine/stage.py:30-44 | without a re-evaluation reset the stage is at least as far as every action row shows, and final once closed |
| Milestones.CaseIsMarked | backend/app/engine/stage.py:30-44 | every stage an action row or a hypothesis stands for has been asked for |
| CaseCycle.BoundIsNeverWhatEndsTheLoop | backend/app/engine/case_service.py:75-91 | with a stable flag order the loop ends by itself within eight steps, for any connectors, exposures and raised flags |
| CaseCycle.OnlyEvidenceRequestsReachTheBound | backend/app/engine/case_service.py:82-91 | with any flag order, a loop the bound cuts off took no action twice and made six distinct evidence requests or more |
| CaseCycle.AdvanceProgresses | backend/app/engine/orchestrator.py:14-20 | every step stalls, takes a phase, or is a met evidence request the engine comes back to |
| CaseCycle.StableDriveStops | backend/app/engine/case_service.py:82-91 | with a stable flag order the loop stops within its remaining phases and two steps |
| OpenGaps.CutOffTakesEightGaps | backend/app/engine/case_service.py:75-91 | with flags in any order, from any state operations can reach, a cut-off loop leaves at least eight MISSING flags open, or seven if a general request had been decided and not yet carried out |
| WholeAdvances.WholeRunsLeaveNothingProposed | backend/app/engine/orchestrator.py:14-20 | if every decision is carried out in the same call, no action is ever left proposed |
| WholeAdvances.WholeRunsTakeEightGaps | backend/app/engine/case_service.py:75-91 | in such runs a loop the bound cuts off leaves at least eight MISSING flags open, however they are listed; with fewer it ends by itself |
| OpenGaps.CappedAsksOften | backend/app/engine/case_service.py:82-91 | from any state, a cut-off loop asks about a different flag at all but the few phases left, or was short |
| TightBound.EightGapsReachTheBound | backend/app/engine/case_service.py:82-91 | a case reached by such a run, with nothing decided and no flag, is cut off with exactly eight MISSING flags, all detected |
| Witnesses.UnstableOrderReachesTheBound | backend/app/engine/case_service.py:82-91 | in a reachable case with exactly the flags detection raises, a changing flag order makes the bound end the loop |
| Witnesses.GapsAreDetected | backend/app/reconciliation/reconciler.py:302-323 | orders nobody paid for raise exactly one missing-payment flag each |
| Witnesses.ParkedOptionIsOfferedAgain | backend/app/engine/nba_engine.py:276-316 | a reachable case proposes the same option twice, after manual review |
| DriveOutcome.StopsOnlyWhereDesigned | backend/app/engine/case_service.py:75-91 | idle means closed, a notice that failed or no option left; a stall is a pending approval, manual review or failure; a repeat is an evidence request that went out |
| DriveOutcome.DriveGoesThrough | backend/app/engine/case_service.py:81-91 | a drive is advance after advance, each answering a new action no person is needed for, until one answers nothing, one for a person or one answered before, or the steps are used up |
| DriveOutcome.IdleIsFinished | backend/app/engine/nba_engine.py:286-379 | a decision answers nothing only when nothing is live and the case is closed, its notice failed or its options are used up |
| Finality.SettledForGood | backend/app/tools/executor.py:42-49 | an action no longer live, a decided approval, a superseded hypothesis and superseded evidence never change again |
| Finality.ApprovalsAreDecidedOnce | backend/app/approvals/service.py:30-40 | a decision succeeds iff it is granted or denied, the approval is pending and the role Admin or the required one; the approval, its action and one last entry then say what was decided and by whom, and every later decision fails |
| StatusFit.StatusSaysWhatIsInFlight | backend/app/engine/nba_engine.py:95-153 | in every reachable case with a live action, the case status is the one for that action |
| Witnesses.ReplayCanLag | backend/app/audit/replay.py:30-62 | a reachable case has a write at which folding the log is not the live state |
| FiniteWork.FiniteWorkPerHypothesis | backend/app/engine/nba_engine.py:181-379 | between deliveries and regenerations, any interleaving creates at most one analysis, escalation, notice and closure and four recoveries, flags in any order, and one request if flags keep their order |
| FiniteWork.RequestsAreBounded | backend/app/engine/nba_engine.py:181-215 | in every reachable case, however flags are listed, evidence requests number at most the MISSING flags and one |
| FiniteWork.QuietStep | backend/app/engine/nba_engine.py:156-379 | each operation spends from the budget of what it creates |
| FiniteWork.BudgetWithinLimit | backend/app/engine/recovery_catalog.py:26-121 | the budget is at most four recoveries and one of everything else |
| RefusalWalk.RefusalsWalkTheCatalog | backend/app/engine/nba_engine.py:276-299 | however its remedies are refused, a case is offered exactly the options left in walk order, then exhaustion is reported; at an option parked in manual review for the same hypothesis the walk ends and deciding hands the parked row back |
| RefusalWalk.WalkCanBegin | backend/app/engine/nba_engine.py:276-299 | a reachable case has its category's whole walk ahead and nothing parked |
| RefusalWalk.WalkCanBeParked | backend/app/engine/nba_engine.py:276-299 | a reachable case has the first option of its walk parked |
| RefusalWalk.RefusalStep | backend/app/engine/nba_engine.py:276-317 | one refusal, by a person or a failing connector, takes the first option left, unless that one is parked, and parks nothing |
| RefusalWalk.HandlingFollows | backend/app/approvals/service.py:22-60 | executions and approvals only move the newest action's status, and a refusal leaves no other trace |
| RecoveryCatalog.BestOption | backend/app/engine/nba_engine.py:286-288 | the chosen option is one not rejected, and none is chosen only when all are |
| RecoveryCatalog.ChoiceFollowsWalkOrder | backend/app/engine/nba_engine.py:286-288 | choosing is taking the first unrejected option of category order, exceptional remedy, apology |
| RecoveryCatalog.RejectionWalk | backend/app/engine/recovery_catalog.py:124-154 | from any past rejections, repeated rejection offers the rest of the walk in order |
| RecoveryCatalog.RejectionWalkFromStart | backend/app/engine/recovery_catalog.py:26-154 | from a fresh start: category options as authored, exceptional remedy, apology, nothing |
| RecoveryCatalog.CategoriesAreAuthored | backend/app/engine/recovery_catalog.py:26-121 | option codes within a category are distinct and at most two |
| RecoveryCatalog.ApprovalGate | backend/app/engine/recovery_catalog.py:26-154 | what is offered is gated iff it is not a rerouting and costs the threshold or is exceptional, with the right role |
| RecoveryCatalog.RerouteEscapesApproval | backend/app/engine/recovery_catalog.py:93-102 | a rerouting above the threshold is offered without approval |
| RecoveryCatalog.CostWithinExposure | backend/app/engine/recovery_catalog.py:26-154 | no remedy on offer costs more than the exposure |
| RecoveryCatalog.PrimaryGatedFrom | backend/app/engine/recovery_catalog.py:26-121 | rounding included, the least exposure from which each category's primary remedy is gated |
| EvidenceStore.Hit | backend/app/reconciliation/reconciler.py:48-55 | the query answers a non-superseded row of the key, and nothing only if there is none |
| Sequences.AnyRowCanBeReturned | backend/app/reconciliation/reconciler.py:48-55 | without ORDER BY every matching row may be the one answered |
| EvidenceStore.IngestGrows | backend/app/reconciliation/reconciler.py:48-133 | each call appends one row with the fields delivered, a repeat or a correction of a row of its key not superseded or, only if there is none, a new fact, and marks only the row it corrects |
| EvidenceStore.IngestKeepsChains | backend/app/reconciliation/reconciler.py:99-118 | a row is superseded iff exactly one later row of its key names it |
| EvidenceStore.IngestConserves | backend/app/reconciliation/reconciler.py:48-133 | per key, facts number one plus superseded repeats, and non-superseded rows one plus repeats |
| EvidenceStore.StoreInvariants | backend/app/reconciliation/reconciler.py:48-133 | both laws hold for every list of deliveries and every choice of matching rows |
| EvidenceStore.OneRowPerDelivery | backend/app/reconciliation/reconciler.py:58-133 | the i-th row has the customer, order, key, time and payload of the i-th delivery, for good |
| ExecutorTheorems.IngestAllStates | backend/app/reconciliation/reconciler.py:58-133 | deliveries filed together are appended in order, field by field |
| ExecutorTheorems.IngestAllLogs | backend/app/reconciliation/reconciler.py:74-132 | each delivery writes exactly one audit entry, which names its row and no case |
| FactUniqueness.OneCurrentFactStaysIff | backend/app/reconciliation/reconciler.py:48-133 | a call keeps one current fact for its key iff the row it hits is not a repeat of another payload |
| FactUniqueness.OneRowStaysIff | backend/app/reconciliation/reconciler.py:48-133 | a call keeps one row not superseded for its key iff the row it hits has another payload |
| FactUniqueness.UniqueFactIffSteady | backend/app/models/evidence.py:37-40 | facts stay unique under every storage order iff no different payload follows an exact repeat in what was delivered |
| FactUniqueness.OneRowIffNothingRepeated | backend/app/models/evidence.py:37-40 | one row is left that is not superseded iff no payload was repeated |
| EvidenceStore.UniqueFactIffNoDuplicateCorrected | backend/app/models/evidence.py:37-40 | in terms of the rows: facts number one plus the superseded repeats |
| EvidenceStore.TwoCurrentFactsForOneKey | backend/app/reconciliation/reconciler.py:48-58 | a fact, its repeat and a correction that hits the repeat leave two current facts |
| Timeline.IndexByEvidence | backend/app/reconciliation/reconciler.py:154-157 | the dictionary holds an event for exactly the evidence ids events point at |
| Timeline.Assemble | backend/app/reconciliation/reconciler.py:148-194 | every current row gets its own event, old or new, in order of time; others stay |
| Timeline.AssemblyKeeps | backend/app/reconciliation/reconciler.py:165-190 | events keep pointing at distinct rows, never both ends of a correction |
| Timeline.TimelineIsBijective | backend/app/reconciliation/reconciler.py:148-194 | after assembling, each current row has exactly one event |
| Timeline.AssemblyIdempotent | backend/app/reconciliation/reconciler.py:148-194 | assembling again creates and changes nothing |
| Timeline.StaleExactlyAfterTwoHops | backend/app/reconciliation/reconciler.py:171-176 | an event points at superseded evidence iff its row was corrected by one that is itself not current |
| Timeline.RunsKeepTimeline | backend/app/reconciliation/reconciler.py:148-194 | over every interleaving of deliveries and assemblies event references stay valid and distinct, and every event tells its row's time and source |
| TimelineFreshness.TwoCorrectionsAreToldTwice | backend/app/reconciliation/reconciler.py:148-194 | a fact assembled, corrected twice and assembled again has one event left on the superseded row and a second one |
| TimelineFreshness.AssemblyIsFreshIff | backend/app/reconciliation/reconciler.py:165-190 | if no event was stale after the last assembly, none is after the next iff whatever corrected a row since is current |
| TimelineFreshness.FreshIffOneHopEach | backend/app/reconciliation/reconciler.py:148-194 | over every run, no event is on superseded evidence after any assembly iff between assemblies no row was corrected twice or by another customer's record |
| Uncertainty.GroupByOrder | backend/app/reconciliation/reconciler.py:258-276 | the grouping dictionaries hold exactly the rows of each order |
| Uncertainty.DetectDuplicates | backend/app/reconciliation/reconciler.py:254-268 | every order captured more than once ends up flagged, nothing else is |
| Uncertainty.DetectConflicts | backend/app/reconciliation/reconciler.py:270-285 | every order with two terminal outcomes ends up flagged |
| Uncertainty.DetectDisputes | backend/app/reconciliation/reconciler.py:287-300 | every order both disputed and delivered ends up flagged |
| Uncertainty.HasFollowup | backend/app/reconciliation/reconciler.py:311-316 | true iff the expected source follows for the same order, not earlier |
| Uncertainty.DetectMissing | backend/app/reconciliation/reconciler.py:302-323 | every row whose follow-up window has passed without one ends up flagged |
| Uncertainty.DetectStale | backend/app/reconciliation/reconciler.py:325-335 | flagged iff the latest evidence is older than the threshold, citing the latest rows |
| Uncertainty.Detect | backend/app/reconciliation/reconciler.py:220-352 | new flags are right by the rules, distinct, none already open, and exactly what was open or holds now ends up open |
| Uncertainty.DetectsExactly | backend/app/reconciliation/reconciler.py:220-335 | detection follows rules written over the rows: windows, threshold, statuses, dispositions, types and cited rows, both ways |
| Uncertainty.MissingExactly | backend/app/reconciliation/rules.py:28-32 | after a sweep a missing follow-up is open iff it was or some row of its source and reference is without it past an hour from order to payment, two days from payment to fulfilment or three from return to payment; nothing else waits |
| Uncertainty.WindowsAreExact | backend/app/reconciliation/rules.py:28-32 | row by row: a follow-up is flagged exactly once its window has passed |
| Uncertainty.StalenessIsExact | backend/app/reconciliation/reconciler.py:325-335 | staleness is flagged exactly when the newest row lies more than two days back |
| Uncertainty.ViolationPersists | backend/app/reconciliation/reconciler.py:225-335 | on fixed evidence a violated condition stays violated |
| Uncertainty.SweepFrequencyIrrelevant | backend/app/reconciliation/reconciler.py:220-352 | sweeping earlier as well leaves the same descriptions open as sweeping late alone |
| Uncertainty.SecondSweepIsSilent | backend/app/reconciliation/reconciler.py:220-352 | a second sweep at the same time raises nothing |
| Confidence.ComputeConfidence | backend/app/engine/hypothesis_engine.py:194-207 | the loop computes the rounded ratio of the link weights |
| Rounding.RoundMonotone | backend/app/engine/hypothesis_engine.py:207 | rounding half to even keeps the order of fractions |
| Confidence.ConfidenceInUnit | backend/app/engine/hypothesis_engine.py:194-207 | confidence lies between 0 and 1 |
| Confidence.ConfidenceIgnoresOrder | backend/app/engine/hypothesis_engine.py:199-206 | the order of link rows does not matter |
| Confidence.ConfidenceMonotone | backend/app/engine/hypothesis_engine.py:203-207 | one more support never lowers it, one more weakening link never raises it |
| Confidence.ConfidenceBoundedBySupportCount | backend/app/engine/hypothesis_engine.py:194-207 | n supporting links give at most n/(n+1), rounded |
| Confidence.ThresholdNeedsTwoSupports | backend/app/engine/nba_engine.py:65 | one supporting link gives at most 0.5, and the 0.6 threshold takes two links |
| Confidence.HalfExactly | backend/app/engine/hypothesis_engine.py:194-207 | rounding included, which weights exceed one half |
| Corroboration.OneRecordReaches | backend/app/engine/hypothesis_engine.py:194-207 | one record cited n times exceeds one half or reaches the threshold iff n times its weight outweighs what speaks against it; cited once it does neither |
| Corroboration.ReachingTakesTwoRecords | backend/app/engine/hypothesis_engine.py:194-198 | a spec that cites nothing twice in support reaches the threshold only on two distinct records |
| Corroboration.ActingTakesTwoRecords | backend/app/engine/hypothesis_engine.py:194-198 | over every run whose generations cite no record twice within a category, a hypothesis above the threshold rests on two distinct records |
| Corroboration.WhenCitesOnce | backend/app/engine/hypothesis_engine.py:171-188 | that is so if each category is fed by two specs or more, or by one that cites once |
| Corroboration.TemplateRunsTakeTwoRecords | backend/app/engine/hypothesis_engine.py:139-198 | over every run whose flags come from detection and whose hypotheses come from the templates, whatever the listing, a hypothesis above the threshold rests on two distinct records |
| Witnesses.OneRecordCanReachTheThreshold | backend/app/engine/hypothesis_engine.py:171-179 | a case with one record on file whose primary is at 0.6667, from a single proposal citing it twice |
| Rounding.HalfWayUp | backend/app/engine/hypothesis_engine.py:207 | a fraction rounds to n or more from the half below n on, that half included exactly for even n |
| Confidence.ThresholdExactly | backend/app/engine/hypothesis_engine.py:199-207 | rounding included, which weights reach the action threshold |
| Confidence.TwoReliableSupportsSuffice | backend/app/engine/nba_engine.py:65 | two fully reliable supports reach the threshold, so the bound of two is tight |
| Confidence.WhichPairsSuffice | backend/app/engine/hypothesis_engine.py:59-72 | which two sources alone reach it |
| HypothesisMerge.MergeByCategory | backend/app/engine/hypothesis_engine.py:162-191 | the dictionary loop computes the merge fold |
| HypothesisMerge.MergeKeepsFirstAppearance | backend/app/engine/hypothesis_engine.py:167-191 | output categories are the input categories without repeats, in order of first appearance |
| HypothesisMerge.MergeUnique | backend/app/engine/hypothesis_engine.py:162-191 | output categories are distinct |
| HypothesisMerge.MergeIncremental | backend/app/engine/hypothesis_engine.py:162-191 | merging in two rounds is merging once |
| HypothesisMerge.MergeIdempotent | backend/app/engine/hypothesis_engine.py:162-191 | merging a merged list changes nothing |
| HypothesisMerge.MergeUnionsCitations | backend/app/engine/hypothesis_engine.py:182-188 | each category cites exactly the union of what its specs cited |
| HypothesisMerge.MergedEntryIs | backend/app/engine/hypothesis_engine.py:167-191 | an entry comes from its category's first spec and cites what the category's specs cite, in their order: once each from two specs on, else as listed |
| HypothesisMerge.MergedEntryIsClean | backend/app/engine/hypothesis_engine.py:182-188 | an entry fed by two or more specs cites nothing twice |
| HypothesisMerge.LoneSpecStays | backend/app/engine/hypothesis_engine.py:171-179 | an entry fed by one spec is that spec, repeats included |
| HypothesisEngine.GenerateViaTemplate | backend/app/engine/hypothesis_engine.py:139-159 | the loop yields one spec for each flag a rule covers |
| GenerationRules.TemplatesFollowFlags | backend/app/engine/hypothesis_engine.py:129-159 | exactly the flags that suggest one of the five categories become proposals, in order, each citing its flag's rows in support and nothing against |
| GenerationRules.GenerationStoresWhatIsGrounded | backend/app/engine/hypothesis_engine.py:162-323 | in any reachable case, from any proposals: one hypothesis for each category for which some proposal cites current evidence in support, linked to exactly the current evidence proposals for it cite, for and against; if there is no such category nothing changes at all |
| GenerationRules.LinksAreWeighed | backend/app/engine/hypothesis_engine.py:59-72 | over every run, every link weighs 1.0, 0.9, 0.7 or 0.5 by its row's source, a row of the case's customer that is no repeat |
| GenerationRules.ConfidenceFollowsLinks | backend/app/engine/hypothesis_engine.py:194-207 | over every run, a confidence is the ten-thousandth nearest to supports / (supports + weakens + 1) of its own links |
| HypothesisEngine.Best | backend/app/engine/hypothesis_engine.py:295-296 | the first of the most confident new rows, as a stable descending sort puts first |
| HypothesisInvariants.CreateKeepsScored | backend/app/engine/hypothesis_engine.py:235-287 | a grounded spec adds one row scored from what it cites, an ungrounded one none |
| HypothesisInvariants.GeneratedKeepsLed | backend/app/engine/hypothesis_engine.py:227-323 | a generation that creates replaces the active batch, otherwise nothing changes |
| HypothesisInvariants.PreviousTopIsPrimary | backend/app/engine/hypothesis_engine.py:227-232 | the previous maximum is the old primary's confidence |
| HypothesisInvariants.TemplateOrderIrrelevant | backend/app/engine/hypothesis_engine.py:86-92 | any permutation of any flags yields the same hypotheses with the same confidence |
| HypothesisInvariants.RegenerationIsStable | backend/app/engine/hypothesis_engine.py:300-306 | regenerating on unchanged evidence and any permutation of the flags finds the same top and never triggers re-evaluation |
| FlagOrder.PrimaryIgnoresOrder | backend/app/engine/hypothesis_engine.py:295-297 | in every reachable case, generating from the templates makes the same category primary for every listing of the flags iff the top confidence is not shared |
| FlagOrder.PrimaryIgnoresOrderIff | backend/app/engine/hypothesis_engine.py:295-297 | the same for any case whose hypotheses are led by their best |
| FlagOrder.SharedTopIsReachable | backend/app/engine/hypothesis_engine.py:295-297 | a reachable case, its flags exactly what detection raises, in which the listing decides which of two categories becomes primary |
| BatchReplay.OneGenerationOrTwo | README.md:54-60 | a reachable case for which one generation of two hypotheses and two of one each write the same log but leave other hypotheses ACTIVE and another primary |
| BatchReplay.BatchesAreNotLogged | backend/app/engine/hypothesis_engine.py:292-320 | in every reachable case, one generation of two lists and a generation of each in turn write the same log iff the first shift is too small to be logged and the second is logged as the single one; the ACTIVE sets always differ |
| BatchReplay.BatchWithinBlock | backend/app/engine/hypothesis_engine.py:292-297 | the ACTIVE batch starts within the last unbroken block of creation entries |
| BatchReplay.SingleEntryTellsTheBatch | backend/app/engine/hypothesis_engine.py:292-297 | two runs with one log whose last block is a single creation agree on every hypothesis, statuses included, and on the primary |
| HypothesisTheorems.OneActiveBatch | backend/app/engine/hypothesis_engine.py:227-323 | over every run the ACTIVE rows are one batch with distinct categories, and the primary is None iff there are none, else its most confident member |
| HypothesisTheorems.EveryHypothesisIsGrounded | backend/app/engine/hypothesis_engine.py:235-275 | every stored hypothesis has a supporting link to the case's own evidence and is scored from its links |
| HypothesisTheorems.PrimaryIsAlwaysActive | backend/app/engine/nba_engine.py:177-182 | the engine's test for a non-ACTIVE primary never succeeds |
| HypothesisTheorems.LastBatchIsActive | backend/app/engine/hypothesis_engine.py:292-297 | after every run the active rows are exactly those of the last generation that created any |
| HypothesisTheorems.OnlyGenerationTouches | backend/app/engine/hypothesis_engine.py:210-323 | no other operation touches hypotheses, links or the primary |
| HypothesisTheorems.StoredExactlyWhenGrounded | backend/app/engine/hypothesis_engine.py:235-273 | stored iff some supporting citation is current evidence of the case; it is then linked to exactly the rows of that sort it cites, for and against |
| HypothesisTheorems.RegeneratingChangesNothing | backend/app/engine/hypothesis_engine.py:300-306 | in any reachable case a second generation from the templates changes neither mark nor top and moves no stage back |
| HypothesisTheorems.StageClosedForm | backend/app/engine/stage.py:30-44 | the stage is the furthest on the journey asked for since the last reset, or where the reset or opening left it |
| Milestones.ResetNeverMovesForward | backend/app/engine/hypothesis_engine.py:298-320 | in every reachable case a generation that resets the stage does not move it forward, and one that does not reset never moves it back |
| Milestones.HypothesesLocateTheFailure | backend/app/engine/hypothesis_engine.py:298 | once a case has hypotheses its stage is never before FAILURE_LOCATED |
| HypothesisTheorems.ReevaluationExactlyOnBigShift | backend/app/engine/hypothesis_engine.py:300-320 | a creating generation marks the case, resets the stage to FAILURE_LOCATED and logs both confidences iff there was a primary and the new one is above it or below it by more than 0.15 |
| TracedSteps.DecideTraced | backend/app/engine/nba_engine.py:156-379 | a decision keeps the log in step with the tables |
| TracedSteps.ExecuteTraced | backend/app/tools/executor.py:42-157 | an execution keeps it in step, its stage entry written ahead of its final event |
| TracedSteps.GeneratedTraced | backend/app/engine/hypothesis_engine.py:210-323 | a generation keeps it in step, reset included |
| TracedSteps.DecidedTraced | backend/app/approvals/service.py:22-60 | an approval decision keeps it in step |
| CaseSession.Evidences | backend/app/reconciliation/reconciler.py:136-145 | each current row of the customer once, by time |
| CaseSession.Session.RecordFor | backend/app/audit/service.py:11-34 | one entry with a later timestamp is appended |
| CaseSession.Session.MoveStage | backend/app/engine/stage.py:30-44 | the stage moves forward only, and every move is audited |
| CaseSession.Session.IngestEvidence | backend/app/reconciliation/reconciler.py:32-133 | one row is appended with the customer, order, key, time and payload delivered, and the row handed back states the fact and is not superseded |
| CaseSession.Session.AssembleTimeline | backend/app/reconciliation/reconciler.py:148-194 | the events follow the evidence; the timeline is in order of time |
| CaseSession.Session.DetectUncertainty | backend/app/reconciliation/reconciler.py:220-352 | exactly the flags the rules call for at this time are raised, each audited |
| CaseSession.Session.ReconcileCase | backend/app/reconciliation/reconciler.py:361-371 | timeline, then flags, then the stage if there is a timeline |
| CaseSession.Session.CreateHypothesis | backend/app/engine/hypothesis_engine.py:235-287 | one spec is stored, linked, scored and audited, or dropped |
| CaseSession.Session.HandOver | backend/app/engine/hypothesis_engine.py:292-320 | the old batch retires, the best of the new is primary, a big shift resets the stage |
| CaseSession.Session.GenerateOrUpdateHypotheses | backend/app/engine/hypothesis_engine.py:210-323 | model proposals, or templates without a model, merged, created and handed over |
| CaseSession.Session.ProposeAction | backend/app/engine/nba_engine.py:95-153 | status and stage, then the identical earlier decision or a new row with its approval |
| CaseSession.Session.RunAnalysis | backend/app/engine/nba_engine.py:218-246 | the analysis action, its assessment and stage, settled inline |
| CaseSession.Session.CloseOut | backend/app/engine/nba_engine.py:345-377 | the closing action, status, stage and entry, once |
| CaseSession.Session.DecideNextAction | backend/app/engine/nba_engine.py:156-379 | the seven branches compute the specified decision |
| CaseSession.Session.DecideRemedy | backend/app/engine/nba_engine.py:274-379 | branches five to seven |
| CaseSession.Session.AttemptRepeatedly | backend/app/tools/executor.py:66-124 | the retry loop makes the specified attempts and hands back the last answer |
| CaseSession.Session.AbsorbAnswer | backend/app/tools/executor.py:127-135 | surfaced evidence is filed under the case's customer and reconciled |
| CaseSession.Session.ExecuteAction | backend/app/tools/executor.py:42-157 | guard, attempts, evidence, final status, stage and entries as specified |
| CaseSession.Session.DecideApproval | backend/app/approvals/service.py:22-60 | which of the three errors is answered, by decision, status and role; without one the approval and its action move together, else nothing changes |
| CaseSession.Session.Open | backend/app/engine/case_service.py:43-72 | a new case, open at ISSUE_REPORTED, on whatever evidence was delivered before, row by row: its other tables empty, one entry of its own |
| CaseSession.Session.Elapse | backend/app/reconciliation/reconciler.py:225-227 | time passes and nothing else changes |
| CaseSession.Session.ReceiveEvidence | backend/app/reconciliation/reconciler.py:32-133 | keeps the session valid |
| CaseSession.Session.ResolveApproval | backend/app/approvals/service.py:22-60 | succeeds iff the decision is one, the approval pending and the role Admin or the required one |
| CaseSession.Session.AdvanceCase | backend/app/engine/orchestrator.py:14-20 | decide and run, as specified, keeping the session valid |
| CaseSession.Session.DriveCase | backend/app/engine/case_service.py:81-91 | the loop takes exactly the specified steps and stops for the specified reason |
| CaseSession.Session.RunCaseCycle | backend/app/engine/case_service.py:75-91 | reconcile, generate, drive; with a stable flag order at most eight steps and never the bound, in any order the bound only with eight MISSING flags open |
| CaseSession.Session.Holds | backend/app/engine/case_service.py:75-91 | every valid session satisfies the invariant of every reachable case |
| CaseSession.Session.ReplayCase | backend/app/audit/replay.py:30-62 | the audit log alone tells the live state, as far as replay can, now and at any past write |

## Left out

- Language model, customer-message drafting and connectors: arbitrary proposals, an opaque message, and an arbitrary answer, exception or timeout per attempt; prompts, backoff and the ten-second clock are not modelled.
- Web routers, authentication, front end, migrations, configuration loading, the seed script (which bypasses the approval service).
- Concurrent database sessions: one operation is one atomic step, with every audit write inside it observable; transactions, pooling and time zones are not modelled.
- Free text: summaries, titles, narratives, rationales, closure summaries, dropped-citation notes and error messages. Flag descriptions are structured values, so a rule matches the description it is written for and not an identifier that happens to contain its words.
- Columns no engine reads: display names, tiers, expected values, decision notes, connector names, request and response payloads, generation context, actor types.
- Impact arithmetic: an assessment's exposure is an input, in whole cents; scores and deadlines are not modelled.
- Floating point: sums of weights are exact tenths and rounding is exact half-to-even, so a sum whose binary error crosses a rounding boundary is outside the model.
- Replay's count of evidence events: ingestion writes its entries without a case, so a case's own trail never contains them.
- "A closed case stays CLOSED": not kept by the code, a later cycle may set the status again; the closure result is about actions.
- Flags being resolved: no code resolves one, so all flags are open. Hypothesis statuses other than active and superseded are never set.
- Looking up the customer and the connector for an action (`registry.resolve`), and a missing case or customer there.
- Finding or creating a customer, the trigger and order of a case, last-activity and closed-at times.
- ActionTheorems.CostlyRemediesWereSignedOff: a rerouting is excepted because the catalog never gates one.
- CaseCycle.BoundIsNeverWhatEndsTheLoop: assumes flags listed in insertion order, which the query does not ask for; Witnesses.UnstableOrderReachesTheBound shows the assumption is needed, OpenGaps.CutOffTakesEightGaps what holds without it.
- CaseCycle.StableDriveStops: assumes the same order, for the same reason.
- FiniteWork.FiniteWorkPerHypothesis: assumes that order for evidence requests alone, for the same reason; FiniteWork.RequestsAreBounded bounds them in any order.
- OpenGaps.CutOffTakesEightGaps: says seven for runs that stop between a decision and its execution, which the code does not make; WholeAdvances.WholeRunsTakeEightGaps says eight for those it does make.
- BatchReplay.SingleEntryTellsTheBatch: for longer blocks only one generation against two is settled, by BatchReplay.BatchesAreNotLogged, not every way a block can be cut into batches.
- Replay reconstructs no case status, assessment or flag, and nothing is claimed of them.
- Evidence on record when a case is opened comes with its own audit entries; entries other cases wrote before are not modelled, later ones are.
- HypothesisTheorems.ReevaluationExactlyOnBigShift: compares confidences exactly; in binary arithmetic a difference of exactly the threshold can come out above it, as 0.65 against 0.5 does, and the code then re-evaluates where the model does not.
- HypothesisTheorems.ShiftDecides: the same comparison.
- CaseSession.Session.GenerateOrUpdateHypotheses: lists open flags in insertion order; HypothesisInvariants.TemplateOrderIrrelevant and FlagOrder.PrimaryIgnoresOrder say what another order changes.
