# Crono: a verified model

Crono is a PostgreSQL-backed scheduler. It promises durable execution intent,
at-least-once dispatch and idempotent logical processing. This project models
the parts of Crono on which that promise rests and proves, for every input,
every interleaving and every reachable state, what they guarantee.

* **Dispatch protocol** (`Dispatch*.dfy`). Runs, Attempts and outbox rows are
  three tables; every transaction is a guarded step on them (`Dispatch`). One
  inductive invariant covers all steps (`DispatchInvariant`); the theorems over
  whole traces follow from it (`DispatchTheorems`), and so does progress
  (`DispatchProgress`). `DispatchLaws` says what each transaction does in terms
  of the columns and of the grants workers were given. `DispatchStore` is the store as the server drives it:
  a class whose methods update the tables statement by statement and loop over
  rows, each proved to be the corresponding step or a finite play of steps.
* **Schedules** (`Recurrence`, `Planner`, `ScheduleHistory`, `ScheduleStore`,
  `Deadlines`). Recurrence scanning, catch-up and misfire planning, the history
  of one Schedule row shared by several scheduler loops and by operators, and
  the class that claims, plans and commits it into the Run tables.
* **Workflows** (`Graphs`, `Workflow*.dfy`). Validation by Kahn's algorithm,
  the browser's layered preview, AND joins with eager skips, the durable driver
  of one invocation, and the way node endings follow from Runs.
* **Inputs and templates** (`Inputs`, `Paths`, `Templates`, `TemplateWriting`).
  Layered JSON merging, listing of renderable paths, and argument templates.
* **Pages and delays** (`Pagination`, `RetryDelay`). The cursor-following loop
  and the publisher's backoff.

Each transaction is one atomic step at one database instant. The database clock
does not run backwards; the server clock a planner or an operator reads is a
separate value. Generated UUIDs are values not yet in use. The message stream is
the set of messages it ever accepted, deliverable any number of times in any
order, which is why worker requests are unconstrained. A publisher may crash at
any point, and publishes only what it was handed.

Instants are whole nanoseconds. The next cron occurrence is a function over an
arbitrary set of instants that may fail to answer; `Recurrence.FirstUtcMatch`
says exactly when the program's own search is such a function. The encoded size
of inputs, the retry instant after a failed execution, and whether a template
rendered for an occurrence are parameters.

Points where a property does not hold on all inputs are stated with their exact
condition: the order of committed instants under arbitrary clocks and toggles
(`ScheduleHistory.OrderedIffKept`, with the concrete failures
`ScheduleHistory.LaggingClockRepeats` and `ScheduleHistory.StaleToggleRepeats`),
an occurrence planned within the second after its deadline
(`Deadlines.LateWindow`, `Deadlines.LastSecondNeverRuns`), and the grouping of
input layers (`Inputs.RegroupIff`, `Inputs.GroupingMatters`). Two details of
catch-up follow the code rather than what its option names suggest: the
age-summary row counts against `max_catchup_runs`, and an occurrence exactly at
the age limit is summarized when an earlier one was due.

## Model

| member | source | states |
|---|---|---|
| `DispatchInvariant.StepOk` | services/server/src/infrastructure/postgres.rs:1598-1935 | Every allowed transaction keeps the cross-table invariant and only lets rows evolve: terminal Runs, settled Attempts and closed outbox rows are frozen, the status measure never rises. |
| `DispatchInvariant.CreateOk` | services/server/src/infrastructure/postgres.rs:2365-2419 | Creating a Run with its first Attempt and outbox row keeps the invariant. |
| `DispatchInvariant.InsertOk` | services/server/src/infrastructure/postgres.rs:2421-2525 | Inserting a planned occurrence (dispatched, skipped or failed to render) keeps the invariant, unique keys included. |
| `DispatchInvariant.MarkOk` | services/server/src/infrastructure/postgres.rs:1648-1698 | Keeps the invariant and the order of rows although `cancelled_at` is never tested: the claim alone rules out a cancelled row. |
| `DispatchInvariant.ClaimOk` | services/server/src/infrastructure/postgres.rs:1724-1779 | Granting an Attempt keeps the invariant although only the Attempt is tested first. |
| `DispatchInvariant.CompleteOk` | services/server/src/infrastructure/postgres.rs:1820-1919 | Completion keeps the invariant and settles Attempt and Run together. |
| `DispatchInvariant.ExpireDispatchOk` | services/server/src/infrastructure/postgres.rs:2047-2105 | Cancelling an overdue dispatch keeps the invariant: row, Attempt and Run close together. |
| `DispatchInvariant.RetryOk` | services/server/src/infrastructure/postgres.rs:2107-2138 | A due retry adds the next Attempt number and an open outbox row and keeps the invariant. |
| `DispatchInvariant.ExpireLeaseOk` | services/server/src/infrastructure/postgres.rs:2140-2200 | Expiring a lease keeps the invariant, whether the Run is redispatched or becomes unknown. |
| `DispatchTheorems.StatusFixesShape` | services/server/src/infrastructure/postgres.rs:1598-1919 | In every reachable state the Run status fixes the rows: pending means exactly one open outbox row for the pending latest Attempt, queued means one queued Attempt whose message was accepted, running means one running Attempt, waiting and terminal mean no live Attempt and no open row. |
| `DispatchTheorems.AttemptNumbers` | services/server/src/infrastructure/postgres.rs:2378-2419 | Attempt numbers of a Run are exactly 1..attempt_count, each once, and never exceed max_attempts. |
| `DispatchTheorems.ClaimNeverConflicts` | services/server/src/infrastructure/postgres.rs:1754-1764 | The Conflict exit of a worker's claim is unreachable in every interleaving. |
| `DispatchTheorems.OneRunPerOccurrence` | services/server/src/infrastructure/postgres.rs:2459-2489 | At most one Run ever exists per Schedule, instant and Target. |
| `DispatchTheorems.GrantsBounded` | services/server/src/infrastructure/postgres.rs:1724-1779 | Under duplicate, late or reordered deliveries, crashes and lost leases a Run is granted at most max_attempts times, an Attempt at most once, a non-idempotent Run at most once. |
| `DispatchTheorems.StatusChangesBounded` | services/server/src/infrastructure/postgres.rs:1881-1909 | A Run changes status at most 4 * max_attempts - 1 times and a terminal Run never changes. |
| `DispatchTheorems.LeaseFencing` | services/server/src/infrastructure/postgres.rs:1781-1853 | Once a lease lapsed or an Attempt settled, no renewal, output or completion is accepted any more; its tails stay, and only expiry may still settle it, once. |
| `DispatchTheorems.SnapshotsNeverRegress` | services/server/src/infrastructure/postgres.rs:1797-1818 | While an Attempt runs, its worker is fixed and its stored sequence never falls; an equal sequence means the same tails. |
| `DispatchTheorems.ClosedRowsStayClosed` | services/server/src/infrastructure/postgres.rs:1648-1671 | A published or cancelled outbox row never changes, is never claimed and never marked again. |
| `DispatchTheorems.CancellationWins` | services/server/src/infrastructure/postgres.rs:2047-2105 | A cancelled row beats an in-flight publication: it never changes, its Attempt stays dead, its Run stays skipped, and no Attempt of that Run is ever granted, even if the message is in the stream. |
| `DispatchTheorems.PastDeadlineNeverRuns` | services/server/src/infrastructure/postgres.rs:1606-1621 | A row past its deadline and in nobody's hands is never published; its Run is never granted and can only end skipped. |
| `DispatchLaws.StrangersChangeNothing` | services/server/src/infrastructure/postgres.rs:1781-1853 | In every reachable state, a worker that no grant of the Attempt names can neither renew, nor report, nor complete it. |
| `DispatchLaws.StoredOutputIsNewest` | services/server/src/infrastructure/postgres.rs:1797-1818 | Once a request was stored, the stored tails are its tails, and in every later state no request with the same or a smaller sequence changes anything. |
| `DispatchLaws.OutputStoredIffNewer` | services/server/src/infrastructure/postgres.rs:1797-1818 | Under a live lease the grantee's output replaces tails and sequence exactly when its sequence is newer. |
| `DispatchLaws.RenewalExtends` | services/server/src/infrastructure/postgres.rs:1781-1795 | A renewal under a live lease moves its end to sixty seconds from now and changes nothing else. |
| `DispatchLaws.CompletionIsDecisive` | services/server/src/infrastructure/postgres.rs:1820-1919 | The grantee's completion settles the Attempt with its tails and decides Run status and retry time by outcome, idempotence and attempts left; a skipped failure is refused. |
| `DispatchLaws.GrantIffQueued` | services/server/src/infrastructure/postgres.rs:1724-1779 | In every reachable state a claim is granted exactly for a queued Attempt of the named Run asked for from the Run's own queue, to that worker, for sixty seconds. |
| `DispatchLaws.GrantsOfCounts` | services/server/src/infrastructure/postgres.rs:1724-1779 | The bounded count of grants is the number of grants that name the Run. |
| `DispatchLaws.CreationStarts` | services/server/src/infrastructure/postgres.rs:2365-2419 | A created Run is pending with the requested idempotence, limit and queue, and has Attempt 1 and an open outbox row due at once without a deadline. |
| `DispatchLaws.RequestIsKept` | services/server/src/infrastructure/postgres.rs:2365-2376 | Requested idempotence, attempt limit and queue hold for the Run's whole life. |
| `DispatchLaws.ClaimIffDue` | services/server/src/infrastructure/postgres.rs:1606-1621 | A row is claimed exactly when it is open, due, inside its deadline and under no live claim, for the requested lease. |
| `DispatchLaws.ClaimLasts` | services/server/src/infrastructure/postgres.rs:1616-1620 | A claim keeps the row away from others, and from release, through the requested lease and no longer. |
| `DispatchLaws.ClaimIsRespected` | services/server/src/infrastructure/postgres.rs:1648-1722 | Before its lease ends, a claim ends only through its holder's mark or failure, or through the row's passed deadline. |
| `DispatchLaws.FailureReschedules` | services/server/src/infrastructure/postgres.rs:1700-1722 | A recorded failure counts, frees the row, and makes it claimable exactly from its retry time. |
| `DispatchLaws.ExpiryIffOverdue` | services/server/src/infrastructure/postgres.rs:2047-2105 | A dispatch is cancelled exactly when open with a passed deadline, together with its Attempt and Run. |
| `DispatchLaws.RetryIffDue` | services/server/src/infrastructure/postgres.rs:2107-2138 | A waiting Run is redispatched exactly from its retry time, with the next Attempt number and its own queue. |
| `DispatchLaws.LeaseLossIffPassed` | services/server/src/infrastructure/postgres.rs:2140-2200 | A lease is taken away exactly once it has passed; the Run is redispatched exactly if idempotent with attempts left, otherwise unknown. |
| `DispatchLaws.ReleaseIffStale` | services/server/src/infrastructure/postgres.rs:1927-1935 | A claim is released exactly once its lease has passed on an open row. |
| `DispatchProgress.PublicationQueues` | services/server/src/infrastructure/dispatcher.rs:136-149 | An acknowledged publication by the claim holder queues the Attempt and its Run, exactly once. |
| `DispatchProgress.ExpiryDecides` | services/server/src/infrastructure/postgres.rs:2140-2200 | A lost lease redispatches an idempotent Run with attempts left, at once claimable, and makes any other Run unknown. |
| `DispatchProgress.DispatchRetriesAreFree` | services/server/src/infrastructure/postgres.rs:1700-1722 | Publication failures, claims, releases, renewals and output leave every Run untouched, and a failed row without a deadline is claimable again from its retry time. |
| `DispatchProgress.NeverStuck` | services/server/src/infrastructure/postgres.rs:1921-1935 | In every reachable state each non-terminal Run has steps that change its status. |
| `DispatchProgress.EveryRunCanFinish` | README.md:37-45 | Durable intent: from every reachable state every Run can still reach a terminal status. |
| `DispatchStore.Store.CreateRun` | services/server/src/infrastructure/postgres.rs:2365-2376 | The statements perform the creation step with unused ids and keep the invariant. |
| `DispatchStore.Store.InsertOccurrence` | services/server/src/infrastructure/postgres.rs:2459-2505 | The insert with its conflict clause performs the step and materializes its key and no other. |
| `DispatchStore.Store.ClaimOutbox` | services/server/src/infrastructure/postgres.rs:1598-1646 | Up to `limit` due rows are claimed, one claim step per record, each record faithful and markable by its claimant; rows outside the records are unchanged; fewer only if nothing more is due. |
| `DispatchStore.Store.MarkPublished` | services/server/src/infrastructure/postgres.rs:1648-1698 | Three conditional updates perform the step; Conflict exactly when the claim is gone. |
| `DispatchStore.Store.PublishOne` | services/server/src/infrastructure/dispatcher.rs:128-179 | Publish, then mark: the stream gains the message exactly if it persisted it, acknowledged or not; a surviving claim holder queues the Run; a lost acknowledgement or a crash changes no Run, and a recorded failure leaves the row open, unclaimed and due again at the retry time. |
| `DispatchStore.Store.RecordPublishFailure` | services/server/src/infrastructure/postgres.rs:1700-1722 | The conditional update performs the failure step and keeps the invariant. |
| `DispatchStore.Store.ClaimAttempt` | services/server/src/infrastructure/postgres.rs:1724-1779 | Attempt first, Run second, rollback on Conflict: performs the step, and the outcome is never Conflict. |
| `DispatchStore.Store.RenewLease` | services/server/src/infrastructure/postgres.rs:1781-1795 | Renews exactly the lease the worker still holds. |
| `DispatchStore.Store.RecordOutput` | services/server/src/infrastructure/postgres.rs:1797-1818 | Stores a snapshot exactly when the lease is held and the sequence is newer. |
| `DispatchStore.Store.CompleteAttempt` | services/server/src/infrastructure/postgres.rs:1820-1919 | Performs the completion step, with its malformed-request and lost-lease exits. |
| `DispatchStore.Store.ReconcileExpiredDispatches` | services/server/src/infrastructure/postgres.rs:2047-2105 | The loop is n expiry steps on n different overdue rows; only those rows, their Attempts and their Runs change; below its limit nothing overdue remains. |
| `DispatchStore.Store.ReconcileDueRetries` | services/server/src/infrastructure/postgres.rs:2107-2138 | The loop is n retry steps on n different due Runs; all other Runs, and every existing Attempt and outbox row, are unchanged; below its limit no retry is due. |
| `DispatchStore.Store.ReconcileExpiredLeases` | services/server/src/infrastructure/postgres.rs:2140-2200 | The loop is n lease expiries of n different lapsed Attempts; only those and their Runs change; below its limit no lease is lapsed. |
| `DispatchStore.Store.ReleaseStaleClaims` | services/server/src/infrastructure/postgres.rs:1927-1935 | One release step per stale claim; no other row changes, and afterwards no claim is stale. |
| `DispatchStore.Store.Reconcile` | services/server/src/infrastructure/postgres.rs:1921-1935 | One pass of repair steps only; rows that needed no repair are unchanged; nothing of the four kinds is left to repair unless a phase reached its limit. |
| `Recurrence.FirstUtcMatch` | services/server/src/scheduler/recurrence.rs:80-105 | A match inside the overlap scan is found first; otherwise the library's answer stands, and it is the next match exactly when the library skipped none beyond the scan. |
| `Planner.PlanCron` | services/server/src/scheduler/planner.rs:107-169 | The plan satisfies `GoodPlan`: strictly increasing genuine occurrences, every due occurrence planned or accounted for by an age or run-cap summary, the cursor moved to the next occurrence; it fails, for a complete recurrence, exactly when nothing follows `now`. |
| `Planner.PlanSchedule` | services/server/src/scheduler/planner.rs:78-105 | A Schedule without a cursor or of type once disables itself; once plans its single instant; cron plans are good plans. |
| `Planner.CatchUpIsBounded` | services/server/src/scheduler/planner.rs:134-158 | At most max_catchup_runs rows execute and, for a positive limit, at most one more exists; run-once executes at most one, skip none. |
| `Planner.PlanIsDetermined` | services/server/src/scheduler/planner.rs:107-169 | `GoodPlan` leaves no freedom: two good plans for the same cursor, clock and occurrences are equal. |
| `Planner.CursorAdvancesIffDue` | services/server/src/scheduler/planner.rs:116-160 | The planned cursor is later than the old one if and only if the planning clock had reached the old one. |
| `Planner.DecisionMeetsDeadline` | services/server/src/scheduler/misfire.rs:20-33 | When a deadline exists an occurrence executes exactly if now < deadline + 1 s; without one, exactly under run-late. |
| `Planner.PlansDecide` | services/server/src/scheduler/planner.rs:171-228 | Every row of a good plan is a summary or is executed exactly under run-late, under skip before at + 31 s, or under grace g before at + (g + 1) s; executed rows carry no deadline, at + 30 s or at + g s accordingly; lateness counts whole seconds; which rows are summaries is fixed by age and run limit. |
| `Planner.OccurrenceRowDecides` | services/server/src/scheduler/planner.rs:171-205 | The same for one occurrence, once Schedules included. |
| `Planner.CatchUpInSeconds` | services/server/src/scheduler/planner.rs:134-158 | Rows after the first are younger than the age limit in seconds; a due occurrence is missing only behind an overaged cursor and at least that old, or after the one row beyond the run limit. |
| `Deadlines.LateWindow` | services/server/src/scheduler/planner.rs:171-228 | A row is planned for execution past its own deadline if and only if the clock is within the second after it. |
| `Deadlines.LateWindowExists` | services/server/src/scheduler/misfire.rs:27-33 | A concrete occurrence, 30 s and 1 ns late, that is executed with its deadline passed. |
| `Deadlines.BornLateNeverRuns` | services/server/src/infrastructure/postgres.rs:1606-1621 | Any Run inserted past its deadline is never claimable or granted and can only end skipped. |
| `Deadlines.LastSecondNeverRuns` | services/server/src/scheduler/planner.rs:171-228 | An occurrence planned within the second after its deadline is planned for execution, and yet its Run, inserted once the database clock has reached the planning clock, is never claimable or granted and can only end skipped. |
| `ScheduleHistory.CommitMatchesCursor` | services/server/src/infrastructure/postgres.rs:1546-1596 | Whatever the clocks and toggles, a plan commits only onto the enabled row and the cursor it was computed from. |
| `ScheduleHistory.CursorStrictlyIncreases` | services/server/src/infrastructure/postgres.rs:1507-1596 | When planning clocks reach the cursor they plan from and do not run ahead, and toggles read the clock as they write, committed instants strictly increase over the whole history, the cursor never moves back, and any commit of instants moves it strictly forward, across toggles too. |
| `ScheduleHistory.NothingLostSilently` | services/server/src/scheduler/planner.rs:134-160 | While no operator touches a catch-up Schedule, every occurrence the cursor passed was materialized or summarized by the committed plan whose window holds it. |
| `ScheduleHistory.CommitAdvancesIffReached` | services/server/src/scheduler/planner.rs:48-52 | With arbitrary clocks, one commit advances the cursor if and only if its planning clock had reached it. |
| `ScheduleHistory.OrderedIffKept` | services/server/src/infrastructure/postgres.rs:1546-1596 | Over any history, committed instants stay strictly increasing and behind the cursor if and only if every committing plan is a catch-up plan or was made with a clock that had reached its cursor, and every effective toggle writes a cursor beyond everything committed. |
| `ScheduleHistory.StepOrdered` | services/server/src/infrastructure/postgres.rs:1086-1126 | From an ordered state each single step keeps the order if and only if it meets its own condition. |
| `ScheduleHistory.StaleToggleRepeats` | services/server/src/application/service.rs:979-997 | A concrete history with exact planning clocks in which a toggle computed earlier makes the same instant commit twice. |
| `ScheduleHistory.LaggingClockRepeats` | services/server/src/scheduler/planner.rs:48-52 | A concrete history without any toggle, each plan made with one second of lag, commits the same instant twice. |
| `ScheduleHistory.ClaimIsExclusive` | services/server/src/infrastructure/postgres.rs:1507-1544 | A claim shuts others out for thirty seconds, and its plan commits strictly within them. |
| `ScheduleHistory.ToggleRevokes` | services/server/src/infrastructure/postgres.rs:1086-1126 | A toggle takes effect exactly at the revision it read, writes its cursor and leaves no plan in hand able to commit. |
| `ScheduleStore.SharedSchedule.ClaimDue` | services/server/src/infrastructure/postgres.rs:1507-1544 | Claims exactly a due, unclaimed row and hands out its cursor. |
| `ScheduleStore.SharedSchedule.SetEnabled` | services/server/src/infrastructure/postgres.rs:1086-1126 | Writes exactly when the revision matches, clearing any claim. |
| `ScheduleStore.InsertCarriesOut` | services/server/src/infrastructure/postgres.rs:2438-2494 | One insert leaves existing rows alone, and a new Run has the status, counts and outbox deadline that its planned row and its rendering call for. |
| `ScheduleStore.SharedSchedule.InsertAll` | services/server/src/infrastructure/postgres.rs:1561-1573 | The double loop is insert steps only; it materializes exactly the planned instants on the selected Targets besides what existed, leaves existing rows alone, and every new Run carries out its row: pending with the planned deadline if executed and rendered, skipped if not executed, failed if not rendered. |
| `ScheduleStore.SharedSchedule.CommitPlan` | services/server/src/infrastructure/postgres.rs:1546-1596 | Commits exactly under a live claim, onto the plan's own cursor, with every new Run carrying out its planned row; a Conflict writes nothing. |
| `ScheduleStore.SharedSchedule.Poll` | services/server/src/scheduler/planner.rs:22-76 | An undisturbed tick on a due row whose recurrence answers always commits a good plan for its cursor; exactly its instants are materialized, and every new Run carries out the planner's decision and deadline. |
| `WorkflowValidate.Validate` | services/server/src/domain/workflow.rs:54-107 | Accepts if and only if the definition is well formed (1 to 64 nodes, at most 256 edges, a description of at most 500 characters without NUL, unique names, different existing endpoints, no repeated pair) and acyclic; each earlier refusal has its own condition. |
| `WorkflowValidate.SoundIsWellFormed` | services/server/src/domain/workflow.rs:55-86 | The edge-by-edge checks amount to the plain statement of what a sound definition is. |
| `WorkflowValidate.Kahn` | services/server/src/domain/workflow.rs:87-105 | The loop terminates, and the visited count equals the node count if and only if there is no directed cycle. |
| `WorkflowValidate.Release` | services/server/src/domain/workflow.rs:94-101 | Counting off never underflows, and exactly the nodes reaching zero join the queue, once. |
| `WorkflowValidate.CollectEdges` | services/server/src/domain/workflow.rs:71-86 | In-degrees and adjacency count exactly the edges, or the first forbidden edge is reported. |
| `Graphs.LeftoversAreCyclic` | services/server/src/domain/workflow.rs:91-105 | After the queue runs dry, the unlisted nodes are exactly those behind a cycle. |
| `WorkflowLayout.Traverse` | apps/web/src/workflow_layout.rs:40-78 | Resolves exactly the nodes not behind a cycle, with duplicate, self and missing edges, and gives each the length of the longest path ending at it. |
| `WorkflowLayout.LayeredLayout` | apps/web/src/workflow_layout.rs:40-126 | Unresolved if and only if cyclic; all unresolved nodes share the layer below the deepest resolved one, or layer 0; layers lie below each other, cards of a layer follow in order, each layer is centred, the canvas is tight, and cards stay inside it and never overlap. |
| `WorkflowLayout.Arrange` | apps/web/src/workflow_layout.rs:90-125 | For any depths: rows 224 apart, neighbours 312 apart, side margins differing by at most one, a canvas no larger than the widest and deepest layers need, cards inside and apart. |
| `WorkflowPreview.SameCycles` | apps/web/src/workflow_layout.rs:34-39 | On a well-formed definition the indexed preview graph and the named graph have the same acyclicity. |
| `WorkflowPreview.PreviewAgrees` | apps/web/src/workflow_layout.rs:78-89 | On well-formed edges the preview is unresolved exactly when validation reports a cycle. |
| `WorkflowRun.DependencyDecision` | services/server/src/domain/workflow.rs:155-181 | Skipped if and only if some settled success edge did not succeed or some settled failure edge neither failed nor is unknown; ready if and only if all predecessors are settled as their edges ask. |
| `WorkflowRun.StartedIsSatisfied` | services/server/src/domain/workflow.rs:149-181 | In every history a node that started has every success-edge predecessor succeeded, every failure-edge predecessor failed or unknown, and all others settled. |
| `WorkflowRun.SatisfiedIsNotSkipped` | services/server/src/domain/workflow.rs:149-181 | A node whose predecessors all satisfy their edges is skipped only if its own Runs ended skipped. |
| `WorkflowRun.SkippedIsRuledOut` | services/server/src/domain/workflow.rs:151-153 | A node skipped without having started has a settled predecessor that contradicts its edge. |
| `WorkflowRun.Confluence` | services/server/src/domain/workflow.rs:149-181 | Any two histories of an acyclic graph with the same outcomes agree on every settled node, and no node cleared in one is ruled out in the other. |
| `WorkflowRun.Progress` | services/server/src/domain/workflow.rs:131-181 | A configuration with unfinished nodes has a started node or a pending node whose decision is made. |
| `WorkflowRun.SameEnd` | services/server/src/domain/workflow.rs:131-181 | Every order of completions that cannot continue ends in the same states, all terminal. |
| `WorkflowRun.HistoryIsShort` | services/server/src/domain/workflow.rs:110-129 | Every history makes at most two moves per node. |
| `WorkflowDriver.Invocation.constructor` | services/server/src/infrastructure/postgres/workflows.rs:351-368 | Launch starts exactly the roots and leaves no decided node waiting. |
| `WorkflowDriver.Invocation.Propagate` | services/server/src/infrastructure/postgres/workflows.rs:552-580 | Looking only at affected nodes, the worklist loop terminates with no decided node left pending. |
| `WorkflowDriver.Invocation.CompleteNodes` | services/server/src/infrastructure/postgres/workflows.rs:487-493 | Exactly the started nodes among the finished ones take their results, all others keep theirs, and the collected successors cover every decision that may have changed. |
| `WorkflowDriver.Invocation.Reconcile` | services/server/src/infrastructure/postgres/workflows.rs:475-506 | Settled states stay, the invocation is quiescent again, and while in progress some node runs. |
| `WorkflowDriver.Invocation.Finish` | services/server/src/infrastructure/postgres/workflows.rs:582-587 | A result exists if and only if every node is settled; it is cancelled, failed if some node failed, is unknown or was cancelled, or succeeded, and never changes. |
| `WorkflowDriver.Invocation.NeverStalls` | services/server/src/infrastructure/postgres/workflows.rs:552-580 | A quiescent unfinished invocation always has a started node. |
| `WorkflowDriver.Invocation.Cancel` | services/server/src/infrastructure/postgres/workflows.rs:589-615 | Cancelling makes exactly the unstarted nodes cancelled and lets started ones run on; the invocation ends cancelled exactly when nothing runs; a finished one is untouched. |
| `WorkflowDriver.SameResult` | services/server/src/infrastructure/postgres/workflows.rs:475-587 | Two finished, never cancelled invocations of one definition whose Runs end alike agree on every node and on the result, however completions were batched and ordered. |
| `WorkflowOutcome.CompleteNode` | services/server/src/infrastructure/postgres/workflows.rs:509-542 | A node ends exactly when all of its Runs have: unknown if any is, else failed if any failed or is dead, else cancelled, else skipped, succeeded only if all did. |
| `WorkflowOutcome.EndsOneWay` | services/server/src/infrastructure/postgres/workflows.rs:513-538 | The ending depends only on which statuses occur, not on their order or number. |
| `WorkflowOutcome.NodeEndingIsFinal` | services/server/src/infrastructure/postgres/workflows.rs:508-542 | No later step of the dispatch protocol can change a node's ending. |
| `WorkflowOutcome.NodeCanEnd` | services/server/src/infrastructure/postgres/workflows.rs:439-473 | From every valid state all Runs of a started node can be brought to an end. |
| `Inputs.ValidateEntries` | crates/execution/src/lib.rs:135-154 | Accepts exactly path-safe keys and NUL-free strings at every depth, and names a real fault otherwise. |
| `Inputs.ValidMeansEverywhere` | crates/execution/src/lib.rs:135-154 | Entries are valid exactly when every string inside, however deep in objects and arrays, is NUL-free and every object there has valid keys. |
| `Inputs.SegmentAlphabet` | crates/execution/src/lib.rs:156-169 | A key is valid exactly if it starts with a lower-case letter or underscore and goes on with lower-case letters, digits, underscores and hyphens. |
| `Inputs.ValidateInputs` | crates/execution/src/lib.rs:67-79 | Accepts exactly valid objects within the size limit; size is the last fault reported. |
| `Inputs.MergeValue` | crates/execution/src/lib.rs:171-183 | The key-by-key update in place computes `Merge`. |
| `Inputs.MergeAt` | crates/execution/src/lib.rs:81-84 | What a merge holds at every path: the base where the overlay is silent, merged objects where both hold objects, otherwise the overlay, null included. |
| `Inputs.SilentMeans` | crates/execution/src/lib.rs:171-183 | Silence is: nothing at the path and no non-object on a proper prefix. |
| `Inputs.LastSpeakerWins` | crates/execution/src/lib.rs:89-97 | Over any number of layers a path ends in a leaf exactly when the last layer that speaks there holds that leaf. |
| `Inputs.MergeAgain` | crates/execution/src/lib.rs:171-183 | Re-merging the same overlay changes nothing. |
| `Inputs.MergeInputs` | crates/execution/src/lib.rs:89-97 | Succeeds exactly if every layer is valid and the result is small enough; valid layers fail only on size. |
| `Inputs.AddsNothingIff` | crates/execution/src/lib.rs:171-183 | Merging over a base leaves exactly the overlay if and only if, wherever both hold objects, the base has no key the overlay lacks. |
| `Inputs.RegroupIff` | crates/execution/src/lib.rs:171-183 | Regrouping three layers gives the same result if and only if no non-object separates an object from one that lacks some of its keys, at any depth. |
| `Inputs.GroupingMatters` | crates/execution/src/lib.rs:171-183 | A concrete triple of layers that depends on the grouping. |
| `Paths.SplitJoin` | crates/execution/src/lib.rs:227-234 | For valid keys, splitting a joined path gives it back. |
| `Paths.JoinSplit` | crates/execution/src/lib.rs:227-238 | Joining a split path gives it back, for every string. |
| `Paths.RenderPath` | crates/execution/src/lib.rs:236-252 | Strings and numbers are given verbatim, booleans as true or false; an absent path is missing, and null, arrays and objects are non-scalar, each error naming the path. |
| `Paths.ScalarPaths` | crates/execution/src/lib.rs:129-133 | For validated inputs a path is listed if and only if rendering it succeeds, and none is listed twice. |
| `Paths.CollectScalarPaths` | crates/execution/src/lib.rs:254-269 | Appends exactly the names of the scalars below a prefix, each once. |
| `Templates.ParseTemplate` | crates/execution/src/lib.rs:185-225 | The loop computes the template's meaning, with the first failure from left to right. |
| `Templates.TemplateConcatenates` | crates/execution/src/lib.rs:185-225 | Rendering equals the concatenation of literal pieces and looked-up values, with no rescan, or the earliest failure. |
| `Templates.ValidatedFailsOnlyOnValues` | crates/execution/src/lib.rs:104-125 | A template that passes validation renders exactly when each of its paths does and fails only on a missing or structured value. |
| `Templates.ValidationSeesEveryFault` | crates/execution/src/lib.rs:104-109 | Validation accepts exactly the templates without a syntax fault, and a faulty one renders against no inputs. |
| `Templates.ValidPathIsJoined` | crates/execution/src/lib.rs:227-234 | Placeholder paths are exactly valid keys joined by dots. |
| `Templates.WhiteSpaceTable` | crates/execution/src/lib.rs:207-210 | Padding is exactly the twenty-five characters of Unicode White_Space. |
| `TemplateWriting.EscapeRoundTrip` | crates/execution/src/lib.rs:188-199 | For every string, rendering its escaped form returns it, whatever the inputs. |
| `TemplateWriting.WriteRoundTrip` | crates/execution/src/lib.rs:185-225 | Escaped literals and padded placeholders render to the literals and the paths' values in place. |
| `TemplateWriting.PlaceholderReads` | crates/execution/src/lib.rs:200-218 | A padded placeholder renders to exactly the text found at its path, or fails as that path does. |
| `TemplateWriting.UnclosedIsRefused` | crates/execution/src/lib.rs:204-206 | A placeholder that is never closed is refused whatever the inputs. |
| `TemplateWriting.BadPathIsRefused` | crates/execution/src/lib.rs:207-211 | A placeholder around anything but a dotted path is refused and named. |
| `TemplateWriting.ValidateArgumentTemplates` | crates/execution/src/lib.rs:104-109 | Accepts exactly the lists in which no template has a syntax fault. |
| `TemplateWriting.RenderArguments` | crates/execution/src/lib.rs:119-125 | Succeeds exactly if inputs are valid and every template renders; each template stays one argument; validated templates fail only on values. |
| `TemplateWriting.ListedPathsRender` | crates/execution/src/lib.rs:127-133 | Every renderable path of validated inputs works as a placeholder. |
| `Pagination.MakePage` | services/server/src/infrastructure/postgres.rs:3100-3124 | The extra row is dropped and turned into a cursor exactly when another page follows. |
| `Pagination.ListPage` | services/server/src/infrastructure/postgres.rs:391-406 | One page holds the first items beyond the cursor in name order. |
| `Pagination.Follow` | apps/web/src/api.rs:488-507 | Following the cursor returns every item once, in order, if and only if the allowed pages suffice. |
| `Pagination.GetAll` | apps/web/src/api.rs:488-507 | With 100 pages of 100: the whole collection, or an error exactly beyond 10,000 items. |
| `RetryDelay.LoadConfig` | services/server/src/infrastructure/dispatcher.rs:46-78 | A configuration is accepted exactly within the stated bounds. |
| `RetryDelay.Delay` | services/server/src/infrastructure/dispatcher.rs:181-195 | For every accepted configuration the delay lies between four fifths of the initial delay and the maximum, and the clamp is never inverted. |
| `RetryDelay.JitterKeepsOrder` | services/server/src/infrastructure/dispatcher.rs:188-191 | A truncated jitter of at most a fifth keeps the order of delays and costs at most a fifth. |
| `RetryDelay.DelayGrows` | services/server/src/infrastructure/dispatcher.rs:181-195 | For a fixed dispatch the delay never shrinks as attempts fail, and the lower clamp never takes effect. |
| `RetryDelay.BaseDoubles` | services/server/src/infrastructure/dispatcher.rs:182-187 | Before jitter the delay is the initial one, doubles with each of six failures up to the maximum, then stays. |
| `RetryDelay.JitterRange` | services/server/src/infrastructure/dispatcher.rs:188-189 | The jitters of all dispatches are exactly the whole percentages from -20 to 20, in order of the seed and repeating every 41. |

## Left out

- Order of row selection, `SKIP LOCKED` and isolation internals: transactions are atomic and pick any eligible rows; the iteration order of JSON objects, and with it the order of listed paths and the choice among several faults, is likewise arbitrary.
- Audit and Schedule events, `last_run_at`, timestamps kept for display, error texts and the truncation of output tails: columns no guard reads.
- ScheduleHistory.CursorStrictlyIncreases: with lagging clocks or stale toggles committed instants may repeat, exactly as `ScheduleHistory.OrderedIffKept` says; uniqueness of Runs then rests on `DispatchTheorems.OneRunPerOccurrence`.
- The floating-point execution-retry backoff: the retry instant is arbitrary.
- Cron field parsing, time zones and the cron library: the set of matching instants is arbitrary; overflow of instants is modelled only in `Recurrence.FirstUtcMatch`.
- Rendering of execution snapshots from catalog rows, Target Set membership, request idempotency of manual Runs and re-runs: straight-line lookups around the modelled inserts.
- DispatchStore.Store.InsertOccurrence: takes whether the snapshot rendered as a parameter; the templates themselves are in `Templates`.
- Workflow preparation limits and stored completion events: an invocation is told which nodes finished; which Runs belong to a node is given.
- WorkflowDriver.Invocation.Reconcile: a node's result is fixed per node in advance; `WorkflowOutcome.NodeEndingIsFinal` shows why the stored statuses give one.
- Pagination.Follow: the collection does not change between pages; decoding errors and the transport are not modelled.
- Machine-integer overflow of counters and coordinates, and the stream sequence number.
- HTTP routing, authentication, authorization, catalog editing, metrics, telemetry, the worker's process runner, the command line and the browser's pages.
