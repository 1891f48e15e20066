# Termnova in Dafny

A model of the parts of Termnova, a contract-intelligence system, whose correctness is not visible in
any one function: the obligation tables and the automation that works on them, document-version
promotion, the text chunker, connector reconciliation, ingestion jobs, token streaming, the agent
graph, the graph view and rank fusion. `dafny verify dfyconfig.toml` checks all of it.

## How it is organised

**Obligations.** `Tables` holds the rows of one tenant as maps from id to row, with append-only logs
and an outbox. `Workflow`, `Occurrences` and `Alerts` say what each operation does to the tables;
`ObligationServices`, `RecurringServices` and `AutomationServices` are the classes that do it step by
step on a `Session`, each method proved equal to its specification, errors included. `Invariants` has
the one invariant `Inv`; `Preservation`, `CyclePhases` and `Runs` prove that every operation keeps it
in every run; `Evolution` proves that every row change passes the database triggers; `Guarantees` and
`Convergence` draw the conclusions a user relies on. `Orphans`, `StaleOwner` and `EventLabels` say
where those end, with `SilentAlert`, `OrphanAlert` and `StaleOwnerAlert` as concrete runs; `WantedSpecs`
serves the first two. `EscalationPolicy`, `RecurrenceRule`, `KeyText`, `AlertSpecs` and `Organizations`
cover the pieces around them.

**Documents.** `ClauseKeys`, `VersionLifecycle`, `LifecycleRuns` and `LifecycleServices` cover clause
keys, comparison and promotion; `ChunkWindows` and `Chunker` the recursive splitter and the sliding
merger; `Ingestion` the job that runs them under redelivery.

**Protocols and retrieval.** `Connector` and `ConnectorSync`, `Streaming`, `QueryParts` and
`AgentGraph`, `GraphSearch` and `Fusion`.

**Terms.** What a specification function computes is stated a second time, on the stored or reported
fields alone and without that function, so that it cannot be wrong together with the method it
specifies: `EvidenceTerms` and `AccessRules` (who may do what, and with which evidence), `AlertTimes`
(which alerts exist, when, for whom), `OccurrenceTerms`, `PolicyTerms`, `RuleTerms`, `ChangeVerdict`,
`SlugTerms`, `SyncDecisions` and `StreamOrder`; the other modules carry such lemmas themselves.

A method is tied to a function of its inputs or of the state before it, and the properties are lemmas
about that function. Queries without an order return any duplicate-free listing of the set they
select, and every result holds for all such listings. Alerts locked by another transaction are two
arbitrary sets of rows, which a cycle skips when it cancels and when it activates.

## Where the code falls short of what one might expect

Each has a failing input and the exact condition under which it happens.

- **Reopened work can stay silent.** Scheduling skips a key that is stored already, whatever the
  stored alert's status (automation.py:251-274). Work that is waived and reopened with a cycle in
  between never gets its alert back: `SilentAlert.SilentRun`, `Convergence.ReopenedWorkStaysSilent`,
  and, as an if-and-only-if, `Convergence.SilentIffSilencedBefore`.
- **A new owner does not get the alerts already scheduled.** A key does not name the owner, so the
  stored alert blocks one for the new owner (automation.py:251-274, 381): it is delivered to the former
  owner, and the new one may not acknowledge it, `StaleOwnerAlert.StaleOwnerRun`. The stored alert names
  the current owner exactly when no alert with its key and another owner was stored before:
  `StaleOwner.NamesOwnerIff`.
- **Alerts for work under an ended obligation.** Scheduling does not look at the parent of an
  occurrence (automation.py:224-247), so a cycle can schedule, and even deliver, what the next one
  cancels: `OrphanAlert.OrphanRun`. It does so exactly when an open occurrence within the horizon has
  an ended obligation and an alert whose key is not stored: `Orphans.OrphansIff`,
  `DeliveredOrphansIff`. Only then does a second cycle change anything, `SecondCycleIdleIff`, and a
  third never does, `Convergence.ThirdCycle`.
- **Chunks are not stored together with the completion.** The triage step commits the session
  (triage/orchestrator.py:119) inside `ingest_file`, before promotion, facts and completion:
  `Ingestion.ChunksBeforeCompletion`, with the condition in `ChunksWithFates`. If a later failure
  is recorded, the document is marked failed while its chunks are stored, every retry collides with
  their unique indices, and the job never completes: `StuckExample`, `BecomesStuck`, `StuckForever`,
  `FineDeliveryCompletes`.
- **A chunk can exceed the chunk size** although every split fits it, because the overlap is kept
  before the next split is appended: `ChunkWindows.OversizeExample`. Some chunk does exactly when some
  split does not fit after the longest run of splits before it that fits the overlap:
  `ChunkWindows.OversizeIff`, and for the chunks themselves `Chunker.RecursiveChunker.MergeOversize`.
- **A fetch is asked for twice at most.** `retry_fetch` is not itself a pending status (sync.py:136),
  so an item whose content never arrives settles as unchanged: `Connector.LapsedFetchExample`, and for
  each pass exactly when it asks, `Connector.FetchesAsked`.
- **Rewriting does not change what is searched for** once a query is taken for one of several parts,
  even if it is a comparison that is then not divided (nodes.py:25-28, 45-53, 72-79):
  `AgentGraph.RewritesIgnoredExample`, and, as an if-and-only-if, `RewritesReachRetrieval`.
- **Superseding closed work is logged as reopening it** (service.py:213-215), exactly when a completed
  or waived obligation is superseded: `EventLabels.SupersededExample`, `SupersededAsReopened`.
- **A rule's components cannot be reordered freely**, since its text must start with `FREQ=`
  (recurrence.py:77); they can exactly if the frequency stays first: `RecurrenceRule.OrderExample`,
  `RuleOrder`, and `RuleTextOrder` for texts that end in a blank.
- **An `INTERVAL` or `COUNT` below one is reported as not an integer**, because the inner error is
  caught as a `ValueError` (recurrence.py:91-101): `RecurrenceRule.ZeroExamples`,
  `SmallIntervalMisreported`, `SmallCountMisreported`.

## Model

| member | source | states |
|---|---|---|
| EscalationPolicy.NormalizeEscalationPolicy | src/termnova/obligations/policies.py:14-56 | Succeeds exactly on acceptable policies and returns the canonical list; otherwise reports the first fault in the order of the checks |
| EscalationPolicy.CanonicalOfIsCanonical | src/termnova/obligations/policies.py:26-56 | A normalized policy is strictly increasing in delay, within the step and delay limits |
| EscalationPolicy.NormalizationIdempotent | src/termnova/obligations/policies.py:14-56 | A normalized policy read back in is accepted and returned unchanged |
| EscalationPolicy.OrderIrrelevant | src/termnova/obligations/policies.py:23-56 | Permuted steps are accepted alike and give the same canonical policy |
| EscalationPolicy.IncreasingUnique | src/termnova/obligations/policies.py:55-55 | A strictly increasing list is determined by its steps |
| PolicyTerms.AcceptableIff | src/termnova/obligations/policies.py:14-56 | Accepted are no policy, and a policy with no other field and at most ten steps, each a whole number of days up to 3650, a known recipient and the one channel, no two after the same days |
| PolicyTerms.CanonicalContent | src/termnova/obligations/policies.py:54-56 | Stored are as many steps, each with its own days and recipient, by increasing delay |
| PolicyTerms.StepFaults | src/termnova/obligations/policies.py:29-53 | The first thing wrong with a step: what it is, its fields, its days, the days of earlier steps, its recipient, its channel |
| Text.FoldIdempotent | src/termnova/obligations/policies.py:45-50 | A label stripped and folded once is stored in the form a second folding gives |
| Text.StripIs | src/termnova/obligations/policies.py:45-50 | Stripping takes off the blanks at both ends and nothing else |
| RecurrenceRule.ValidateRule | src/termnova/obligations/recurrence.py:76-101 | The checks of a rule's text, one by one, find exactly the accepted rules, with their dictionary, and otherwise the first error |
| RecurrenceRule.ReadPartsEntries | src/termnova/obligations/recurrence.py:79-88 | The dictionary has exactly the components' keys, each with its own value |
| RecurrenceRule.RuleOrder | src/termnova/obligations/recurrence.py:76-101 | The components of an accepted rule, in another order, are accepted exactly when the frequency comes first, with the same dictionary |
| RecurrenceRule.RuleTextOrder | src/termnova/obligations/recurrence.py:76-101 | The same on texts before they are stripped and put in upper case: a reordered text loses the blanks at its end, its components stay but for the last value, and it is accepted exactly when the frequency comes first and that value passes |
| RecurrenceRule.OrderExample | src/termnova/obligations/recurrence.py:77-77 | `FREQ=DAILY;INTERVAL=2` is a rule, `INTERVAL=2;FREQ=DAILY` is none |
| RecurrenceRule.SmallIntervalMisreported | src/termnova/obligations/recurrence.py:91-95 | An interval that is an integer is reported as not an integer exactly when it is below one |
| RecurrenceRule.SmallCountMisreported | src/termnova/obligations/recurrence.py:96-101 | The same for a count, once the interval is in order |
| RecurrenceRule.ZeroExamples | src/termnova/obligations/recurrence.py:91-101 | `INTERVAL=0` and `COUNT=0` are reported as not integers |
| RuleTerms.WrittenRule | src/termnova/obligations/recurrence.py:76-101 | A text of components `key=value` is accepted exactly when its keys are known and different, the frequency comes first and is one of four, and interval and count are at least one; the dictionary then holds just them |
| RuleTerms.AcceptedIsWritten | src/termnova/obligations/recurrence.py:77-88 | Every accepted text is one of components `key=value` without line breaks |
| RuleTerms.NotARule | src/termnova/obligations/recurrence.py:77-78 | Refused as no rule are exactly the texts that are empty, break the line or do not start with `FREQ=` |
| RuleTerms.ComponentErrors | src/termnova/obligations/recurrence.py:79-88 | The first component from the left without a key, with one used before or with an unknown one is the error |
| Tables.ValidateCompletion | src/termnova/obligations/service.py:394-435 | Passes exactly when the scope shows what the policy asks for; `EvidenceTerms.CompletionIff` says on the stored fields what that is |
| EvidenceTerms.CompletionIff | src/termnova/obligations/service.py:394-435 | Completion is granted exactly when the stored number is readable, the scope holds that many accepted artifacts and as many as there are different listed types, and one of every listed type that is not blank |
| EvidenceTerms.CompletionRefused | src/termnova/obligations/service.py:405-435 | Why it is refused: first an unreadable number, then the missing types by name, then too few artifacts |
| EvidenceTerms.ItemsNeedNoCount | src/termnova/obligations/service.py:406-407 | The bound added for listed types never refuses anything on its own |
| EvidenceTerms.IndependenceIs | src/termnova/obligations/service.py:437-447 | Another reviewer is asked for exactly by either flag or by an amount that reaches the threshold; a threshold that is needed and no number is an error |
| ObligationServices.ObligationService.CreateFromFact | src/termnova/obligations/service.py:54-128 | The step-by-step creation does exactly that, or fails with the same error and leaves the tables alone |
| ObligationServices.ObligationService.Assign | src/termnova/obligations/service.py:130-162 | Assignment refines its specification, errors included |
| ObligationServices.ObligationService.Acknowledge | src/termnova/obligations/service.py:164-189 | Acknowledgement refines its specification; repeated, it changes nothing |
| ObligationServices.ObligationService.Transition | src/termnova/obligations/service.py:191-221 | A transition refines its specification: access, transition table, evidence gate, event |
| ObligationServices.ObligationService.SubmitEvidence | src/termnova/obligations/service.py:239-331 | Submission refines its specification; the same artifact twice in one scope is returned, not stored again |
| ObligationServices.ObligationService.ReviewEvidence | src/termnova/obligations/service.py:333-392 | A review refines its specification: decisions are final, independence is enforced on acceptance |
| ObligationServices.ObligationService.Locked | src/termnova/obligations/service.py:449-464 | A client gets the row exactly when it exists and still has the revision the client read; not found means unknown, and anything else is the obsolete revision with the current one |
| ObligationServices.ObligationService.RecordEvent | src/termnova/obligations/service.py:483-518 | Appends one event and touches nothing else |
| AccessRules.RefusedWhenLocked | src/termnova/obligations/service.py:449-464 | No operation on an obligation gets past an unknown id or an obsolete revision |
| AccessRules.CreateAnswers | src/termnova/obligations/service.py:54-128 | Work comes from a verified fact, once, for an active member or nobody and with an acceptable policy, and starts with the requested terms and the amount of the fact |
| AccessRules.AssignAnswers | src/termnova/obligations/service.py:130-162 | Open work is given to an active member or to nobody, and is then not acknowledged; ended work keeps its owner |
| AccessRules.AcknowledgeAnswers | src/termnova/obligations/service.py:164-189 | Only the owner acknowledges, only active work, and a second time changes nothing |
| AccessRules.TransitionAnswers | src/termnova/obligations/service.py:191-207 | Access is denied exactly to those who neither own the work nor may manage; the others succeed exactly for a listed pair of statuses, with the evidence shown if it is a completion |
| AccessRules.TransitionChanges | src/termnova/obligations/service.py:208-221 | A granted transition changes the status, the date of completion and the revision, logs one event, and nothing else |
| AccessRules.SubmitAnswers | src/termnova/obligations/service.py:262-280 | Evidence is taken from the owner or a manager, unless the work was waived or superseded, for the work or one of its own occurrences |
| AccessRules.SubmitChanges | src/termnova/obligations/service.py:281-331 | The same content for the same scope is the stored artifact; other content becomes a pending one of the submitter |
| AccessRules.ReviewAnswers | src/termnova/obligations/service.py:345-369 | Acceptance by the submitter is denied exactly if either flag is set or the amount reaches the threshold; acceptance needs a readable threshold when it matters; rejection needs neither |
| AccessRules.ReviewChanges | src/termnova/obligations/service.py:371-392 | A decision is stored with reviewer, time and note, and counted as a revision of the work |
| EventLabels.LabelOfTransition | src/termnova/obligations/service.py:209-220 | A transition appends one event, labelled as reopening exactly when it leaves completed or waived work |
| EventLabels.SupersededAsReopened | src/termnova/obligations/service.py:213-215 | A reopening that leads to `superseded` is logged exactly when completed or waived work is superseded |
| EventLabels.SupersededExample | src/termnova/obligations/service.py:213-215 | Waived work in a reachable state, superseded and logged as reopened |
| RecurringServices.RecurringObligationService.ExistingAt | src/termnova/obligations/recurrence.py:156-169 | The dictionary of stored occurrences: an instant is a key exactly when an occurrence stands there |
| RecurringServices.RecurringObligationService.Materialize | src/termnova/obligations/recurrence.py:125-241 | Refines its specification and returns, instant by instant of the expansion, the one stored occurrence |
| RecurringServices.RecurringObligationService.Transition | src/termnova/obligations/recurrence.py:243-308 | An occurrence's transition refines its specification |
| AccessRules.TransitionInstanceAnswers | src/termnova/obligations/recurrence.py:243-285 | The same for an occurrence: who is denied, and which pairs of statuses are granted with which evidence |
| AccessRules.TransitionInstanceChanges | src/termnova/obligations/recurrence.py:286-308 | What a granted transition of an occurrence changes and logs |
| OccurrenceTerms.MaterializeAnswers | src/termnova/obligations/recurrence.py:125-155 | Occurrences are generated for repeated work with a date, not waived or superseded, in a window of at most 366 days with at most 500 instants; the first condition that fails is the error |
| OccurrenceTerms.NewOccurrences | src/termnova/obligations/recurrence.py:171-241 | The new occurrences are those at the instants of the window that had none, with the owner, terms and revision of the work, logged one by one and once together; nothing else changes |
| Convergence.SchedulesAreUnion | src/termnova/obligations/recurrence.py:150-241 | After materializing, the stored schedules are exactly the old ones and the window's occurrences |
| Convergence.MaterializeIdempotent | src/termnova/obligations/recurrence.py:150-241 | Materializing a window again stores and logs nothing |
| Convergence.WindowsCompose | src/termnova/obligations/recurrence.py:150-241 | Two windows that meet or overlap store what their union would |
| AutomationServices.BuildSpecs | src/termnova/obligations/automation.py:357-432 | The loop over the normalized policy builds exactly the due, reminder and escalation specs |
| AlertSpecs.SpecKeysDistinct | src/termnova/obligations/automation.py:357-432 | The alerts of one target have pairwise distinct keys and satisfy the level and recipient constraints, whatever owner and policy |
| AlertSpecs.EscalationsGrow | src/termnova/obligations/automation.py:418-431 | Under a normalized policy a higher escalation level is strictly later |
| AlertSpecs.KeysOfTargetsDisjoint | src/termnova/obligations/automation.py:369-381 | Targets of different work or due time never share a key |
| AlertTimes.AlertsOfTarget | src/termnova/obligations/automation.py:357-432 | All the alerts of a target: at the due time, the lead time before, and for each step of the policy its days after; to the role of the step, or the owner, or else the reviewers |
| AlertTimes.WantedIsAsked | src/termnova/obligations/automation.py:194-247 | Which alerts are scheduled: those of open work without a rule and of open occurrences, due by the end of the horizon |
| KeyText.AlertKeyTextInjective | src/termnova/obligations/automation.py:369-381 | Two stored key texts are equal exactly when target, due time, kind and level are |
| AutomationServices.ObligationAutomationService.MaterializeRecurring | src/termnova/obligations/automation.py:162-192 | Materializes every open recurring obligation in query order; an expansion error ends the cycle |
| AutomationServices.ObligationAutomationService.CancelTerminalAlerts | src/termnova/obligations/automation.py:319-354 | Cancels exactly the unlocked pending alerts whose work has ended |
| AutomationServices.ObligationAutomationService.ExistingKeys | src/termnova/obligations/automation.py:251-263 | The lookup in batches of 1000 equals one set membership query |
| AutomationServices.ObligationAutomationService.ScheduleAlerts | src/termnova/obligations/automation.py:194-277 | Adds exactly the specs whose key is not stored yet |
| AutomationServices.ObligationAutomationService.ActivateDueAlerts | src/termnova/obligations/automation.py:279-317 | Makes exactly the unlocked due alerts ready, in time order, one outbox message and one event each |
| AutomationServices.ObligationAutomationService.RecordAlertEvent | src/termnova/obligations/automation.py:434-481 | One obligation event, and one occurrence event when there is one |
| AutomationServices.ObligationAutomationService.RunCycle | src/termnova/obligations/automation.py:86-115 | A cycle is the four phases in order, with the reported totals; cancelling and activating each skip what is locked then |
| AlertTimes.CycleTotals | src/termnova/obligations/automation.py:86-115 | What a cycle reports is how many occurrences and alerts it added, how many messages it sent and how many alerts it cancelled |
| AutomationServices.ObligationAutomationService.Acknowledge | src/termnova/obligations/automation.py:117-160 | Acknowledging an alert refines its specification: revision, recipient, readiness |
| Organizations.RunTenant | src/termnova/obligations/automation.py:543-562 | A tenant's cycle commits whole or leaves no trace, wherever an exception or the commit itself fails; without one it fails only if the cycle refuses |
| Organizations.RunAllOrganizations | src/termnova/obligations/automation.py:507-571 | Without the lock nothing happens; with it every tenant is attempted with its own faults and locked rows, a failed one does not disturb the others, and the totals count the committed cycles |
| Organizations.TotalsAdd | src/termnova/obligations/automation.py:46-52 | Each reported total is the sum of that number over the committed cycles |
| Runs.NextKeeps | src/termnova/obligations/service.py:54-392 | Every operation, accepted or refused, keeps the invariant |
| CyclePhases.CycleKeeps | src/termnova/obligations/automation.py:86-115 | A whole cycle keeps the invariant, whatever rows were locked when it cancelled and when it activated |
| Runs.RunInv | src/termnova/obligations/service.py:47-518 | The invariant holds in every state of every run |
| Guarantees.CompletedMeansEvidenced | src/termnova/obligations/service.py:191-447 | In every reachable state completed work has as many accepted artifacts as its stored number and one of every listed type, and no accepted artifact was reviewed by its submitter if a flag is set or the amount reaches the threshold |
| Preservation.CompletedMonotone | alembic/versions/e64f90b31c25_recurring_obligation_instances.py:76-92 | Evidence that is added, or decided while pending, never takes back what a completion relied on |
| Guarantees.LogExplainsObligation | src/termnova/obligations/service.py:483-518 | In every reachable state the log's statuses chain up to the row's, its revision counts the mutating events, its owner is the last recorded; unassigned means unowned, and a completion date means completed |
| Guarantees.ReplayIsChain | src/termnova/obligations/service.py:483-518 | A log that replays without contradiction is a chain of statuses that ends in the replayed one |
| Guarantees.LogExplainsInstance | src/termnova/obligations/recurrence.py:191-308 | In every reachable state an occurrence's own log chains up to its status, its revision counts the events that generated or changed it, and it is dated complete exactly when completed |
| Guarantees.InstanceReplayIsChain | src/termnova/obligations/recurrence.py:191-308 | An occurrence's log that replays is a chain of statuses ending in the replayed one, with as many changes as the revision says |
| Guarantees.ExactlyOnceDelivery | src/termnova/obligations/automation.py:294-316 | In every reachable state alerts with a delivery time and outbox messages correspond one to one, with the alert's own content |
| Guarantees.DeliveredOneToOne | src/termnova/obligations/automation.py:298-305 | No delivery is lost, doubled or invented |
| Guarantees.AlertRevisionCountsSteps | src/termnova/obligations/automation.py:117-354 | An alert's revision is one more than the steps both logs record, at most 3, and 1 exactly while scheduled |
| AlertTimes.NeverEarly | src/termnova/obligations/automation.py:279-317 | In every reachable state no alert is ready before its time: no escalation before its work was due and the days of its step have passed |
| AlertTimes.AlertLogSays | src/termnova/obligations/automation.py:434-481 | In every reachable state the log tells of each alert that it was sent, as its kind, and acknowledged or cancelled, and nothing else |
| Guarantees.IdempotencyKeysUnique | alembic/versions/f75a01c42d36_obligation_alert_automation.py:147-151 | In every reachable state no two alerts share a key, no two occurrences of an obligation an instant, no two artifacts of one scope a hash, and no two obligations a fact |
| Evolution.NextAdmissible | alembic/versions/f75a01c42d36_obligation_alert_automation.py:206-252 | Every row change of every operation, and of every step inside a cycle, is allowed by the alert, evidence and snapshot triggers |
| Evolution.CycleAdmissible | alembic/versions/f75a01c42d36_obligation_alert_automation.py:206-252 | The same for each phase of a cycle, whatever was locked |
| Evolution.RunEvolves | alembic/versions/e64f90b31c25_recurring_obligation_instances.py:57-92 | Between any two states of a run rows only move forward: terms and snapshots never change, decided evidence, acknowledged and cancelled alerts and superseded work are final |
| Evolution.RevisionNamesContent | src/termnova/obligations/service.py:449-464 | A row that still carries the revision a client read is the row the client read |
| Evolution.HistoryIsPrefix | alembic/versions/e64f90b31c25_recurring_obligation_instances.py:203-220 | Logs and outbox are append-only along every run |
| Convergence.NothingDueAfterCycle | src/termnova/obligations/automation.py:279-317 | After a cycle no scheduled alert is due |
| Convergence.SpecsAreWanted | src/termnova/obligations/automation.py:194-247 | Whatever the order of the two queries, the specs considered are those of the open work within the horizon |
| Convergence.WantedAlertsExist | src/termnova/obligations/automation.py:194-277 | After a cycle every wanted alert's key is stored, exactly once |
| Convergence.OnlyOrphansLeft | src/termnova/obligations/automation.py:224-247 | All a cycle leaves cancellable are its own new alerts of open occurrences under ended obligations |
| Orphans.OrphansIff | src/termnova/obligations/automation.py:224-247 | A cycle leaves something to cancel exactly when, before it, an open occurrence within the horizon has an ended obligation and an alert whose key is not stored |
| Orphans.DeliveredOrphansIff | src/termnova/obligations/automation.py:224-317 | An alert is delivered for such work exactly when one of those is already due |
| Convergence.SecondCycle | src/termnova/obligations/automation.py:86-115 | A second cycle at the same instant materializes, schedules and activates nothing and cancels only what the first left |
| Orphans.SecondCycleIdleIff | src/termnova/obligations/automation.py:86-115 | A second cycle at the same instant changes nothing exactly when there was no such occurrence |
| Convergence.ThirdCycle | src/termnova/obligations/automation.py:86-115 | A third cycle changes nothing at all |
| AlertTimes.AskedIsStored | src/termnova/obligations/automation.py:194-277 | After a cycle every alert that open work asks for by the horizon in days is stored under its key |
| AlertTimes.AddedWasAsked | src/termnova/obligations/automation.py:194-277 | Every alert a cycle adds was asked for, and is sent if its time has come, else scheduled |
| AlertTimes.CycleOccurrences | src/termnova/obligations/automation.py:162-192 | A cycle leaves an occurrence at every instant of every repeated open work from the lookback to the horizon |
| AlertTimes.StoredAlertFate | src/termnova/obligations/automation.py:279-354 | What a cycle does to a stored alert, on the statuses of its work: cancelled, sent now, or left alone |
| Convergence.LockedAlertFate | src/termnova/obligations/automation.py:279-354 | What a cycle does to one stored alert when others are at work: cancelled if its work ended and it was free then, else delivered if due and free then, else untouched |
| Convergence.AlertFate | src/termnova/obligations/automation.py:279-354 | What a cycle does to one stored alert: cancelled if its work ended, else delivered if due, else untouched |
| Convergence.SilentIffSilencedBefore | src/termnova/obligations/automation.py:251-274 | After a cycle the alert stored under a wanted key is cancelled exactly when one with that key was stored cancelled, or pending under an ended obligation |
| Convergence.ReopenedWorkStaysSilent | src/termnova/obligations/automation.py:251-274 | Work waived, cycled, reopened and cycled again is left with its cancelled alert and no other under that key |
| StaleOwner.AsWantedIff | src/termnova/obligations/automation.py:251-274 | After a cycle the alert stored under a wanted key is the wanted one, content and all, exactly when no other was stored under that key before |
| StaleOwner.NamesOwnerIff | src/termnova/obligations/automation.py:251-274 | It names the current owner of its work exactly when no alert with its key and another owner was stored before |
| SilentAlert.SilentRun | src/termnova/obligations/automation.py:251-274 | One concrete run that ends with wanted work whose only alert is cancelled |
| OrphanAlert.OrphanRun | src/termnova/obligations/automation.py:224-247 | One concrete run: recurring work gets an occurrence and is waived, and the next cycle delivers the occurrence's alert |
| StaleOwnerAlert.StaleOwnerRun | src/termnova/obligations/automation.py:138-145 | One concrete run: scheduled work gets a new owner, its alert is delivered to the former one, and the new one may not acknowledge it |
| ClauseKeys.NormalizedHeading | src/termnova/lifecycle/service.py:45-47 | A slug is never empty and contains no colon |
| ClauseKeys.StableKeysDistinct | src/termnova/lifecycle/service.py:129-134 | No two chunks of a version share a key |
| ClauseKeys.KeysCount | src/termnova/lifecycle/service.py:129-134 | A version has as many keys as chunks |
| KeyText.DecimalInjective | src/termnova/lifecycle/service.py:134-134 | Different counts are written differently |
| KeyText.DecimalIs | src/termnova/lifecycle/service.py:134-134 | A count is written in its decimal digits |
| SlugTerms.SlugIs | src/termnova/lifecycle/service.py:45-47 | A slug is the runs of letters and digits of the heading, or else of the first twelve words, in small letters and joined by hyphens, cut at 96 characters |
| SlugTerms.KeyIs | src/termnova/lifecycle/service.py:129-134 | A key is the slug, a colon, and which of the clauses with that slug it is |
| VersionLifecycle.ClauseAccounting | src/termnova/lifecycle/service.py:181-224 | Current clauses are unchanged, added or modified; prior ones unchanged, removed or modified |
| VersionLifecycle.ReviewCondition | src/termnova/lifecycle/service.py:206-304 | A version needs review exactly when it replaces most of the document or touches a clause of high materiality |
| ChangeVerdict.ChangeRows | src/termnova/lifecycle/service.py:174-203 | One row for every clause that only one version has or whose normal form differs, with its kind, its similarity, and its level: high for a material text, low for texts at least three quarters alike, else medium |
| ChangeVerdict.Verdict | src/termnova/lifecycle/service.py:204-213 | Review is needed exactly when a clause changed and the changed ones are three quarters of the larger version or one of them is material; and which classification is given when |
| ChangeVerdict.StoredVerdict | src/termnova/lifecycle/service.py:214-227 | In every consistent library the stored change set of a version is that verdict on its own clauses and those of the version it superseded |
| VersionLifecycle.OneClausePerRow | src/termnova/lifecycle/service.py:115-127 | No stored occurrence overwrites another when a version's dictionary is read back |
| VersionLifecycle.PromotedAccounting | src/termnova/lifecycle/service.py:204-227 | In every consistent library the stored counts add up to the stored occurrences of the version and of its baseline, so the clamp at zero never acts |
| VersionLifecycle.LinearHistory | src/termnova/lifecycle/service.py:243-247 | Walking back from the active version visits every promoted version of the document once and ends at the initial one |
| LifecycleServices.CompareClauses | src/termnova/lifecycle/service.py:181-205 | One row per changed clause, and counts equal to the sizes of the three kinds of change |
| LifecycleServices.BuildChangeSet | src/termnova/lifecycle/service.py:204-227 | The summary, classification and verdict account for the comparison; without a baseline nothing is compared |
| LifecycleServices.VersionLifecycleService.PriorByKey | src/termnova/lifecycle/service.py:115-127 | The baseline's clauses and identities by key |
| LifecycleServices.VersionLifecycleService.IdentityFor | src/termnova/lifecycle/service.py:135-150 | An identity for a key is reused or created; there is never a second one |
| LifecycleServices.VersionLifecycleService.WriteOccurrences | src/termnova/lifecycle/service.py:129-169 | One occurrence per chunk, with the chunk's key, text and position |
| LifecycleServices.VersionLifecycleService.MarkProcessing | src/termnova/lifecycle/service.py:65-69 | Only a pending version becomes processing |
| LifecycleServices.VersionLifecycleService.MarkFailed | src/termnova/lifecycle/service.py:71-75 | Any version but a promoted one becomes failed |
| ChangeVerdict.MarkAnswers | src/termnova/lifecycle/service.py:65-75 | A version is marked as processing only while pending, and as failed unless promoted |
| LifecycleServices.VersionLifecycleService.CompareVersion | src/termnova/lifecycle/service.py:94-227 | The version's rows are stored and compared with the active version's, or with nothing |
| LifecycleServices.VersionLifecycleService.PromoteVersion | src/termnova/lifecycle/service.py:94-270 | A first promotion stores rows and change set, supersedes the baseline and becomes active; nothing else changes |
| LifecycleServices.VersionLifecycleService.AnalyzeAndPromote | src/termnova/lifecycle/service.py:77-270 | The whole call with its early returns and errors, and the library stays consistent |
| ChangeVerdict.PromotionAnswers | src/termnova/lifecycle/service.py:77-112 | Without a version nothing happens, a promoted one gives its stored result, one without chunks is refused, and any other is promoted over the active one with one row for each chunk |
| LifecycleRuns.NextKeeps | src/termnova/lifecycle/service.py:65-270 | Every call keeps the library consistent |
| LifecycleRuns.RunOk | src/termnova/lifecycle/service.py:65-270 | Every state of every run is consistent: linear history, a change set exactly for promoted versions, accounts that add up |
| LifecycleRuns.RunKeeps | src/termnova/lifecycle/service.py:71-75 | Promoted versions, their rows and change sets never change again |
| LifecycleRuns.RepeatedPromotion | src/termnova/lifecycle/service.py:82-92 | Once promoted with some analysis, any later call for the document returns the same analysis and changes nothing |
| LifecycleRuns.HistoryGrows | src/termnova/lifecycle/service.py:243-247 | Along a run a document's history only grows at its end |
| ChunkWindows.WindowsCover | src/termnova/pipeline/chunker.py:154-190 | The windows start at 0, end at the last split, leave no gap; ends strictly increase, starts never decrease |
| ChunkWindows.NewExactlyOnce | src/termnova/pipeline/chunker.py:163-190 | Each split is new in exactly one window |
| ChunkWindows.WindowsUnique | src/termnova/pipeline/chunker.py:154-190 | The conditions determine the windows: no other list satisfies them |
| ChunkWindows.WindowRule | src/termnova/pipeline/chunker.py:154-190 | A window takes every split that does not bring it over the chunk size, up to the first that would; the next starts as early as the overlap allows |
| ChunkWindows.OversizeCondition | src/termnova/pipeline/chunker.py:166-185 | A window exceeds the chunk size exactly when its overlap and its first new split do, and then holds nothing more |
| ChunkWindows.StartIsLongestFit | src/termnova/pipeline/chunker.py:171-182 | Each window starts where the longest run of splits before its first new one that fits the overlap starts, taken from the whole list |
| ChunkWindows.OversizeIff | src/termnova/pipeline/chunker.py:166-185 | Some window exceeds the chunk size exactly when some split does not fit after the longest run of splits before it that fits the overlap |
| ChunkWindows.WindowBound | src/termnova/pipeline/chunker.py:166-185 | If no split exceeds the chunk size, no window exceeds it by more than the overlap |
| ChunkWindows.OversizeExample | src/termnova/pipeline/chunker.py:166-185 | A window over the chunk size although both splits fit |
| ChunkWindows.CarryUnique | src/termnova/pipeline/chunker.py:171-182 | The overlap is the longest fitting end of the window |
| Chunker.SplitJoin | src/termnova/pipeline/chunker.py:142-142 | Joining the parts of a split with the separator gives the text back |
| Chunker.PartsLackSeparator | src/termnova/pipeline/chunker.py:142-142 | No part contains the separator |
| Chunker.RecursiveChunker.RecursiveSplit | src/termnova/pipeline/chunker.py:129-152 | Nothing is lost but listed separators, the pieces are in order and not empty, a piece over the chunk size contains no separator, and without an empty separator no piece is cut anywhere else |
| Chunker.RecursiveChunker.SplitRules | src/termnova/pipeline/chunker.py:129-152 | A text within the chunk size is not divided; any other is divided at every place of the first separator, and each part that is not empty split on its own |
| Chunker.RecursiveChunker.Slices | src/termnova/pipeline/chunker.py:137-140 | The character fallback loses nothing |
| Chunker.RecursiveChunker.SplitAndMerge | src/termnova/pipeline/chunker.py:94-98 | Splitting and merging with the separators in use: a blank text has no chunks, any other the merge of a split of it in which pieces end only at separators, so the character fallback plays no part |
| Chunker.RecursiveChunker.KeepOverlap | src/termnova/pipeline/chunker.py:171-182 | Keeps the longest end of the chunk that fits the overlap, with its token count |
| Chunker.RecursiveChunker.MergeSplits | src/termnova/pipeline/chunker.py:154-190 | Each chunk is one greedy window's splits joined by spaces, every window becomes a chunk, and one is oversize exactly under that condition |
| Chunker.RecursiveChunker.MergeOversize | src/termnova/pipeline/chunker.py:154-190 | The same for the chunks the merger returns, from the token counts of its splits |
| Chunker.RecursiveChunker.MergeUnique | src/termnova/pipeline/chunker.py:154-190 | The splits determine the chunks |
| Chunker.RecursiveChunker.KeepAndRenumber | src/termnova/pipeline/chunker.py:76-83 | Exactly the long enough chunks, or the only one, are kept, in order and numbered from 0 |
| Chunker.KeptAre | src/termnova/pipeline/chunker.py:76-83 | Kept are exactly the chunks whose stripped text has the minimum length, or the only one, unchanged but for their number |
| Connector.ActionsCoverAll | src/termnova/connectors/sync.py:98-176 | Every item a pass reports on has its action |
| Connector.TotalIsLength | src/termnova/connectors/sync.py:100-183 | The counts add up to the number of actions |
| Connector.ThirdPassSettles | src/termnova/connectors/sync.py:132-176 | Replaying one full snapshot settles by the third pass: only unchanged, revoked or missing, and a fixpoint |
| Connector.WaitingIsNews | src/termnova/connectors/sync.py:132-168 | A pass leaves an item waiting for its content exactly when its snapshot is news to the inventory |
| Connector.SecondPassSettles | src/termnova/connectors/sync.py:132-176 | Two passes suffice exactly when the snapshot brought no news |
| Connector.FetchesAsked | src/termnova/connectors/sync.py:132-155 | When an item's content is asked for: in the first pass exactly if it is news or was waiting, in the second exactly if it was news, later never |
| Connector.LapsedFetchExample | src/termnova/connectors/sync.py:136-149 | A new file whose content never arrives: asked for twice, then taken as unchanged |
| SyncDecisions.Decisions | src/termnova/connectors/sync.py:132-155 | The action for a known item on its fields: revoked, new content by revision or hash, restored, retried, moved, new permissions or unchanged, and a fetch exactly for three of them |
| SyncDecisions.NewsIs | src/termnova/connectors/sync.py:132-148 | What counts as news, on the fields |
| SyncDecisions.PassItem | src/termnova/connectors/sync.py:101-176 | What a pass leaves of an item and asks for: the first snapshot as reported with the decision, or missing from a full pass, or left alone |
| SyncDecisions.CountsAre | src/termnova/connectors/sync.py:100-168 | The stored count of each action is how many of them there are |
| SyncDecisions.RevokedMarks | src/termnova/connectors/sync.py:140-145 | A document is marked exactly when an item it came from can no longer be read |
| ConnectorSync.Compare | src/termnova/connectors/sync.py:132-155 | The decision for a known item; a fetch is required exactly for an accessible item with new, restored or retried content |
| ConnectorSync.ConnectorSyncService.ReconcileSnapshots | src/termnova/connectors/sync.py:101-168 | The loop: the first snapshot of an item decides, later ones are counted as duplicates |
| ConnectorSync.ConnectorSyncService.MarkMissing | src/termnova/connectors/sync.py:170-176 | A full pass marks exactly the stored items it did not see |
| ConnectorSync.ConnectorSyncService.Reconcile | src/termnova/connectors/sync.py:57-196 | New inventory, one action per item, counts and duplicates that sum to snapshots plus missing items, revoked documents, and run cursors that form a chain |
| ConnectorSync.ConnectorSyncService.CompleteRun | src/termnova/connectors/sync.py:178-182 | The run is closed and its cursor continues the chain of the earlier runs |
| Streaming.ReadLines | src/termnova/llm_client.py:190-203 | A request's chunks up to the first undecodable line, and how it ended |
| Streaming.DirectTraceShape | src/termnova/llm_client.py:182-207 | One provider is asked at most `retries + 1` times, again only after a retryable failure before the first chunk |
| Streaming.TraceShape | src/termnova/llm_client.py:223-273 | Whatever fails, only the last request delivered anything, none is repeated, and there are at most `retries + 1` per candidate |
| StreamOrder.UsableAre | src/termnova/llm_client.py:210-236 | The usable candidates: the primary, then a fallback that is another one, each with the keys it needs |
| StreamOrder.RequestOrder | src/termnova/llm_client.py:228-268 | The primary is asked first if it is ready; the fallback exactly when it is ready and another one, and the primary is not ready or its last request failed before any text; never the other way round |
| StreamOrder.RepeatedIs | src/termnova/llm_client.py:182-207 | A request is repeated exactly for a provider asked directly that failed before any text for a reason that may pass, while retries remain |
| StreamOrder.AnswerIs | src/termnova/llm_client.py:190-203 | A request delivers its texts up to the first line that cannot be read, and ends with that or as the provider ended it |
| Streaming.StreamFrom | src/termnova/llm_client.py:171-207 | The retry loop makes exactly those requests and hands on the last one's stream and error |
| Streaming.StreamWithFallback | src/termnova/llm_client.py:223-273 | The consumer sees one request's stream and its ending; at most `2 * (retries + 1)` requests; no usable provider is its own error |
| Ingestion.IngestionWorker.IngestDocument | src/termnova/pipeline/tasks.py:45-132 | The commits and rollbacks of one delivery leave exactly the specified rows, wherever it fails |
| Ingestion.RunConsistent | src/termnova/pipeline/tasks.py:61-79 | In every reachable state promotion, facts and completion are durable together or not at all |
| Ingestion.DeliveryOutcome | src/termnova/pipeline/tasks.py:45-132 | What one delivery leaves of every row, by where it failed: completed, retrying or dead-lettered, or running |
| Ingestion.CompletedAbsorbs | src/termnova/operations/jobs.py:89-99 | A completed job ignores every later delivery |
| Ingestion.CompletesOnce | src/termnova/pipeline/tasks.py:78-79 | At most one delivery completes the job |
| Ingestion.AttemptsCountStarts | src/termnova/operations/jobs.py:89-99 | Attempts equal the deliveries whose first commit took effect |
| Ingestion.ChunksBeforeCompletion | src/termnova/triage/orchestrator.py:119-119 | A delivery after which the chunks are durable and the job is not complete |
| Ingestion.ChunksWithCompletion | src/termnova/triage/orchestrator.py:119-119 | Chunks and completion agree in every state of a run exactly when no delivery before the completion got through triage but not to the end |
| Ingestion.ChunksWithFates | src/termnova/triage/orchestrator.py:119-119 | The same read off the deliveries alone: exactly when the first one that stores chunks gets to the end |
| Ingestion.FineDeliveryCompletes | src/termnova/pipeline/ingestion.py:72-121 | A delivery without faults completes the job exactly when the job is not stuck |
| Ingestion.StuckForever | src/termnova/pipeline/ingestion.py:80-121 | A stuck job never completes |
| Ingestion.BecomesStuck | src/termnova/pipeline/tasks.py:101-131 | A job gets stuck exactly by a recorded failure of a delivery that got through triage, or found the document already through it |
| Ingestion.StuckExample | src/termnova/pipeline/tasks.py:101-131 | One recorded failure after triage, and the job is stuck |
| Ingestion.NeverStuckWithoutTriage | src/termnova/pipeline/ingestion.py:144-160 | While triage does not commit, a job can always still complete |
| Ingestion.JobKeyInjective | src/termnova/operations/jobs.py:59-59 | Two requests share a key exactly when document and file hash agree |
| Ingestion.JobStore.CreateIngestionJob | src/termnova/operations/jobs.py:51-86 | One job and one outbox event per key; an equal request returns the stored job |
| AgentGraph.RunTail | src/termnova/agents/graph.py:46-78 | From a retrieval on, whatever the components answer, a run adds one of the allowed tails |
| AgentGraph.TailBounds | src/termnova/agents/nodes.py:126-162 | An allowed tail's length, rewrites and last node |
| AgentGraph.RunTrace | src/termnova/agents/graph.py:33-78 | Every run's trace matches the grammar: at most 2 rewrites, at most 16 visits, the apology only after both rewrites |
| AgentGraph.AfterGrading | src/termnova/agents/nodes.py:102-135 | Relevant chunks lead to an answer, none to a rewrite while fewer than two were made, else to the apology |
| AgentGraph.AfterGuardrails | src/termnova/agents/nodes.py:192-245 | Another rewrite follows exactly if fewer than two were made and the answer is too little faithful or has more than one flag |
| AgentGraph.AskedAndRewritten | src/termnova/agents/nodes.py:72-79 | What a retrieval asks for and what a rewrite makes of the query |
| AgentGraph.RetrievedIs | src/termnova/agents/nodes.py:72-99 | What a retrieval returns: every chunk found for the targets, once and in order, reordered by the last rewrite or else the query |
| AgentGraph.FirstOnlyIsFirst | src/termnova/agents/nodes.py:75-89 | De-duplication keeps each chunk once, where it first appears |
| AgentGraph.CollectHits | src/termnova/agents/nodes.py:75-89 | The retrieval loop returns exactly that |
| QueryParts.PiecesWeave | src/termnova/agents/nodes.py:46-49 | Dividing a query loses nothing but the conjunctions it is divided at |
| QueryParts.SubQueries | src/termnova/agents/nodes.py:50-53 | Each sub-query is a stripped piece of more than five characters, or the query is the only one |
| QueryParts.OnePiece | src/termnova/agents/nodes.py:46-53 | A query in which no conjunction can start, such as a comparison, is its own only sub-query |
| QueryParts.MultiPartIff | src/termnova/agents/nodes.py:24-28 | A query counts as several parts exactly with two question marks or one of five phrases between blanks |
| QueryParts.CutIff | src/termnova/agents/nodes.py:46-49 | Where a query is divided: question marks, three phrases standing alone, and semicolons inside a word |
| QueryParts.LongPiecesAre | src/termnova/agents/nodes.py:50-50 | Kept are exactly the pieces of six characters or more |
| QueryParts.DecomposedIs | src/termnova/agents/nodes.py:46-53 | The sub-queries are exactly those pieces, or the query itself if there are none |
| AgentGraph.RewritesReachRetrieval | src/termnova/agents/nodes.py:72-79 | With a retriever a run searches once more than it rewrites, always for the same exactly when the query was taken for one of several parts or no rewrite produced anything new; without one it searches for nothing |
| AgentGraph.SubQueriesStay | src/termnova/agents/nodes.py:72-79 | Once there are sub-queries, every retrieval of the rest of the run searches for them |
| AgentGraph.RewrittenInVain | src/termnova/agents/nodes.py:126-162 | A query of several parts for which nothing is found is rewritten twice to something new and searched for three times in the same way |
| AgentGraph.RewritesIgnoredExample | src/termnova/agents/nodes.py:25-79 | Both parts of one query, and a comparison that is not even divided, are searched for three times whatever the rewrites produced |
| GraphSearch.ReachIsWithin | src/termnova/graph/builder.py:323-335 | The ids reached in `depth` rounds are those at undirected distance at most `depth` |
| GraphSearch.Round | src/termnova/graph/builder.py:326-335 | One scan of the edges finds exactly the unvisited neighbours of the current level, although `visited_nodes` changes during it |
| GraphSearch.Subgraph | src/termnova/graph/builder.py:320-342 | The visited ids are those within the depth, whatever the order of the edges, and the kept edges are the induced ones |
| GraphSearch.InducedExactly | src/termnova/graph/builder.py:340-342 | Every edge inside the set is kept as often as it occurs, and no other |
| Fusion.NormalizedRange | src/termnova/rag/retriever.py:114-121 | The normalized score is in (0, 1], is 1 exactly for the leader of both lists, and the minimum with 1 changes nothing |
| Fusion.ScoreIs | src/termnova/rag/retriever.py:98-133 | The score by its numbers: weights of three and two fifths over the smoothed ranks, relative to first place in both lists |
| Fusion.ScoreMonotone | src/termnova/rag/retriever.py:114-133 | A chunk ranked at least as well in both lists never scores lower |
| Fusion.ScoreRange | src/termnova/rag/retriever.py:119-133 | Rounded scores stay between 0 and 1 |
| Fusion.Retrieve | src/termnova/rag/retriever.py:90-152 | The result is the head of some descending ranking of all candidates, cut by threshold and `k` |
| Fusion.RetrieveGuarantee | src/termnova/rag/retriever.py:137-152 | At most `k` chunks, best first, at least one if there is a candidate, none left out scores above one kept, and below the threshold only the best alone |
| Fusion.RetrieveComplete | src/termnova/rag/retriever.py:141-145 | Unless `k` chunks are kept every candidate that reaches the threshold is, and one below it only if none does |
| Fusion.SortDescending | src/termnova/rag/retriever.py:138-138 | The sort is descending and a permutation |

## Left out

- Tenancy beyond one organization's tables: row-level security, `bypass_rls`, the organization filter of every query, `ON DELETE` cascades. `Organizations` has one set of tables per tenant.
- The audit table, which mirrors the event logs; titles, priorities, descriptions, currencies and other columns nothing decides on; stored objects behind evidence.
- Calendar arithmetic and time zones: a recurrence is a fixed set of instants that expansion filters by window, and whether its text is valid is one flag there. `RecurrenceRule` has the checks of the text; the zone check, `UNTIL` and `BY...` values are not part of this model, and integers are read by a parameter.
- Text outside ASCII: `strip`, `casefold`, `lower`, `upper` and NFC normalization act on ASCII only; the normal form whose hash decides whether a clause changed is a parameter.
- Hashes and UUIDs are identities; ids come from one counter.
- Concurrency inside one transaction: each operation is one atomic step, and a locked row is one a cycle does not see.
- Lifecycle: the order of a version's change rows, language detection, materiality terms and similarity are left open; removing versions is not part of this model.
- Chunker: the page and section loop, header prefixes and character offsets (approximate in the original); the tokenizer is a parameter.
- Connector: health and timestamp columns, which no decision reads.
- Streaming: the HTTP and client-library calls, back-off delays and consumers that stop early.
- Ingestion: parsing, embedding and graph building are one step that may raise or crash; a file whose hash belongs to another document; cache counters after the last commit; connector item statuses.
- Agent graph: what the components compute, and the answer text; words and letter case are ASCII.
- Graph view: how nodes and edges are loaded; the node lists, which are filtered by the same set.
- Fusion: floating point is real arithmetic with any monotone rounding that fixes 0 and 1, the smoothing constant is not negative, and the separate semantic and keyword scores are carried along unchanged in the original.
- OIDC, rate limiting, redaction, file checks, analyzers built on regular expressions, portfolio reports and the HTTP layer: library calls and single-branch checks.
