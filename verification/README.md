# Verified model of the asynqmon console's protocols and resumable algorithms

asynqmon is a console over asynq queues held in Redis. This project models the
parts of it that must stay correct across crashes, claim handovers, budget
cut-offs and concurrent requests, and proves what they promise with Dafny.

## What is modelled

**Listings** (`Listings`). A fixed fleet, its listing pages, and the one-pass
enumeration order that the bulk jobs and both scans follow.

**The bulk-job engine** (`Job*.dfy`, from `jobs/`). One job's Redis keys
(`JobStore`) and the whole protocol as a state machine (`JobProtocol`): each
Lua script is one atomic step, each read-then-write of Go code is two, lease
expiry, crashes, stops, lost writes and any number of runners and operator
requests interleave freely. `JobInvariant`, `JobSteps` and `JobActs` give the
inductive invariant of the job's data and show that every action keeps it;
`JobTheorems` states what follows for every schedule; `JobControl` says when a
job fails and what a session does once a pause or a cancel is pending;
`JobStates` says exactly for which schedules the job's state machine holds; `JobLimits` and `JobCap`
show where promises stop. `JobRunner` and `JobOperators` are the Go loops and
requests as imperative code over a store that everyone else changes between any
two round trips. What the others do, which of the actor's commands fail, and
whether the job's setup is good are inputs, so the contracts say when a runner
gives up and that it finishes when nothing stands in its way. Every store call
is logged as the protocol action it performs, so the theorems about schedules
apply to every run of that code.

**The error-signature indexer** (`Errsig*.dfy`, `SortedSet.dfy`, from
`errsig/`). The archived tail walks a sorted set by re-anchored score windows
while entries are added and removed at every command (`ErrsigTail`,
`ErrsigArchive`, `ErrsigSweep`), sweep after sweep (`ErrsigQueue`); the stored
cursor's codec (`ErrsigCursor`); the rotation of sweeps under a command budget
(`ErrsigRotation`); and the count matrix with its three fenced writers
(`ErrsigMatrix`, `ErrsigSampler`).

**The query language's back half** (`Aql*.dfy`, from `aql/` and
`aql_exec.go`). State gating and resolution (`AqlGate`), compilation to a score
range and a predicate (`AqlPlan`), cursor listings (`AqlCursor`), a compiled
query listed by cursor (`AqlListing`), and the budgeted, resumable scan
(`AqlScan`).

**Smaller cores.** The MessagePack reader against the wire format
(`Msgpack*.dfy`), the sparse consumer window (`StatsConsumers`), the attention
engine's memory (`StatsAttention`), the overflow-safe page of a streamed scan
(`SearchPage`), and the budgeted scan behind it (`SearchBudget`, `SearchScan`).

## Assumptions the model makes explicit

- Jobs: `internal/leasefence` and Redis are atomic guarded steps. A fleet, its
  listings and the matcher are fixed while a job runs.
- Archived tail: nothing is archived at or below the upper bound of a sweep
  that has begun. A score is the second a task died in, and a sweep stops short
  of the running second. Entries may be removed at any time.
- Query compilation: one `now` per query. Archived scores are read back for
  every listed task; the code treats a score of 0 as absent.
- Listings and scans: the store is fixed across the calls that follow a cursor,
  and no queue has an empty name, which is how the code writes "no cursor".
- Indexer writes: both feeders of a holder run one after the other on one
  goroutine, so between a batch's reads and its write only other holders act.

## What the proofs found in the code

- `RequestResume` reads the job and later writes with a plain HSET, so its
  write can land on a job that has moved on: a canceled job goes back to
  previewing, an executing job shows as previewing, a complete preview as
  running again. The state machine holds over a schedule if and only if every
  resume write that changes the state lands on a job that is not terminal and
  is still in the phase that was read, its preview incomplete when that is the
  preview (`JobStates.PromisesIffSafe`). The data of the job, its counts,
  lists, cursors and fencing, are exact under every schedule all the same.
- `DropCandidates` is not guarded by the fence. When a preview goes over
  1,000,000 candidates on its last page, its runner may stall before the
  failed write, a successor may complete the preview, and the stalled runner
  then deletes the successor's list: the job ends done with nothing decided.
  Below the cap this cannot happen.
- `next_run>` rounds its bound down to a whole second in the score range and
  not in the predicate, so a cursor listing shows one second that a scan of the
  same query does not (`AqlPlan.HalfSecond`).
- A tail page is read at an offset that counts the ties already served. When k
  of those are removed between two pages, the next page, unless it is empty,
  passes over the first k unread entries, and no later sweep examines them
  (`ErrsigTail.PageSkipsFront`, `ErrsigQueue.OneTieRemoved`). Nothing is passed
  over while no served tie is removed.
- A scan stopped by its sink resumes at the next page, so the matches behind
  the one it stopped at, in the same page, are streamed by no call
  (`AqlScan.OneOfTwo`). The only sink that stops a scan is the bounded
  collector of the filtered batch action (task_search_handlers.go:173, used at
  line 1222): its caller refuses the request on overflow and never resumes the
  scan, so today nobody sees the gap.
- `scanMatchingTasks` promises that a scan is reported truncated only while
  work remains. A scan examines everything if and only if its budget exceeds
  the number of tasks in front of the last listing page that holds anything.
  With a budget of at least one it is then reported truncated all the same if
  and only if the budget does not exceed the number of tasks and either that
  page is full or a group or queue, with nothing in it, still follows
  (`SearchBudget.CutShortForNothing`, `SearchScan.ScanMatching`). Two inputs are
  `SearchScan.LastPageFull` and `SearchScan.EmptyQueueFollows`.

## Model

| member | source | states |
|---|---|---|
| JobTheorems.Reachable | jobs/runner.go:355-926 | Under every schedule of claims, lease expiries, crashes, stops, lost writes, page and batch writes and operator requests, the inductive invariant of the job's data holds |
| JobActs.RunKeepsInv | jobs/store.go:537-720 | The invariant is kept by every action from any state that has it, hence over every run |
| JobActs.NextOk | jobs/store.go:604-638 | One action of any kind, by anyone, keeps the invariant |
| JobSteps.AdvanceOk | jobs/runner.go:355-677 | Every round trip of any runner, current or superseded, keeps the invariant |
| JobSteps.PageScanOk | jobs/runner.go:587-626 | The cursor stored with a page, the scanned count and the walk that wrote it agree on exactly what is left to enumerate, also across a queue boundary where the frozen group list is dropped |
| JobActs.ActTiles | jobs/runner.go:877-901 | A full batch extends the decided positions without gap or overlap; a partial one leaves them |
| JobTheorems.TokensIncrease | jobs/store.go:537-541 | A granted claim's token is larger than every token ever minted, and names no earlier session |
| JobTheorems.FenceGrows | jobs/store.go:537-541 | The fence never goes back, over any run |
| JobTheorems.StaleSessionsChangeNothing | jobs/store.go:604-607 | Once a larger token exists, nothing an older session does changes the job hash, the sample or the failures; it may drop an over-cap candidate list and release a lease its own instance holds |
| JobStates.StatesAgree | jobs/store.go:364-527 | Over a schedule whose resume writes are safe, running implies the execute phase, previewing an incomplete preview, preview_ready a complete one |
| JobStates.PromisesIffSafe | jobs/store.go:505-527 | Over every schedule, every reached state fits the phase and no terminal state is left, if and only if every resume write lands on a job that is not terminal and is in the phase that was read, incomplete when that is the preview |
| JobStates.ExecuteWasGated | jobs/store.go:364-411 | Under every schedule, a job in the execute phase is not a count, and its preview is complete or it is no delete and the partial one was acknowledged |
| JobStates.OneStepResumesAreSafe | jobs/store.go:505-527 | A schedule in which every resume write directly follows its read is safe |
| JobStates.NextStates | jobs/store.go:364-527 | A safe action of any kind, by anyone, keeps the state fitting the phase and the current session fitting the state |
| JobStates.TerminalForever | jobs/store.go:429-487 | Over a safe schedule a canceled, done or failed job keeps that state for ever, although execute, cancel and resume are split into a read and a later write racing with runners |
| JobTheorems.ResumedEnumerationIsOnePass | jobs/runner.go:505-667 | At every moment of every schedule the counts, the sample and (within the cap) the candidate list are those of one pass stopped after the scanned tasks, and the stored cursor leaves exactly the rest of that pass: nothing lost, nothing repeated |
| JobTheorems.CompletePreviewIsExact | jobs/runner.go:669-677 | When the preview is complete, its counts, sample and (within the cap) candidate list equal those of one uninterrupted pass |
| JobTheorems.ExecuteAccounts | jobs/runner.go:817-901 | Under every schedule acted is the number of acts reported done, skipped the number of candidates found gone, matching no more or already as wanted, failed the number of failed re-fetches and acts, over all accepted batches; the act cursor stays within the candidates, and the three counts are the cursor plus exactly what partial batches added |
| JobTheorems.OnlyMatchesActedOn | jobs/runner.go:843-871 | Under every schedule the verb is applied only to a candidate re-fetched and still matching, and every one found not to match is skipped |
| JobTheorems.DecidedExactlyOnce | jobs/runner.go:891-901 | Every position below the act cursor was decided in exactly one accepted full batch, which held that candidate |
| JobTheorems.BatchesInTokenOrder | jobs/runner.go:794-901 | In every reachable history a batch of an older claim never follows one of a newer claim, and none is of a token above the fence |
| JobTheorems.DoneMeansAllDecided | jobs/runner.go:809-812 | Within the cap a done job has decided every match of its scope, in order |
| JobTheorems.ReportConserved | jobs/store.go:619-634 | Under every schedule the stored report is the first 10,000 of all failures in order, the failed count is their number and the overflow the rest; the candidate count is the list's length, over the cap too, until the list is dropped |
| JobControl.FailedMeansSetup | jobs/runner.go:474-500 | Under every schedule a job whose scope fits the cap is failed only after some runner could not compile its scope or resolve its queues |
| JobControl.RequestEndsSession | jobs/runner.go:404-424 | Under every schedule a session that reads a pending cancel or pause between two batches writes no further page or batch: whatever it does from then on changes no count, list or cursor, only the state, to canceled or paused, the flag and its lease |
| JobControl.NoRequestGoesOn | jobs/runner.go:404-424 | A session that reads no pending request goes on to its next page or batch |
| JobActs.BatchAccounts | jobs/runner.go:817-889 | What a batch acted on, skipped and failed counts each of its references at most once, and each of them when the batch is full |
| JobStates.ResumeWriteSafeIff | jobs/store.go:505-527 | A resume write keeps the state machine's promises if and only if the job it lands on is not terminal and is still in the phase that was read, incomplete when that is preview |
| JobLimits.SplitResumeLeavesTerminal | jobs/store.go:505-527 | A concrete schedule in which a canceled job goes back to previewing |
| JobLimits.SplitResumeUndoesExecute | jobs/store.go:505-527 | A concrete schedule in which a job that was sent to execute goes back to previewing |
| JobLimits.SplitResumeUndoesCompletion | jobs/store.go:505-527 | A concrete schedule in which a complete preview goes back to previewing |
| JobCap.DoneIsExactIffUnderCap | jobs/runner.go:642-650 | Done means every match was decided, under all schedules, if and only if the scope holds at most 1,000,000 matches |
| JobCap.OverCapDoneUndecided | jobs/store.go:828-830 | For every scope above the cap there is a schedule that ends done with nothing decided |
| JobCap.SomePreviewCompletes | jobs/runner.go:474-677 | Every scope has a schedule that completes its preview: the cursor always moves |
| Listings.GroupsRestStep | jobs/runner.go:567-612 | A listing page is the front of what the cursor leaves, and the next cursor leaves the rest |
| Listings.RefsOfConcat | jobs/runner.go:585-602 | Matching page by page is matching the whole |
| Listings.RefsOfAt | jobs/runner.go:585-602 | Every match has its place among the references, right after the matches in front of it, and nothing else has one |
| Listings.AllTasksExact | jobs/runner.go:505-667 | One pass meets exactly the tasks listed in the groups of the queues in scope |
| JobStore.Store.ClaimLease | jobs/store.go:537-567 | Granted only while no lease is held, minting the next token in the same step; a lease that is held stays its holder's |
| JobStore.Store.RenewClaim | jobs/store.go:544-577 | True exactly for the instance that holds the lease |
| JobStore.Store.ReleaseClaim | jobs/store.go:551-582 | Drops the lease only of its holder; another holder's lease and everything else stay |
| JobStore.Store.WriteProgress | jobs/store.go:604-690 | The script's loops amount to one guarded step: nothing under a stale token, else fields, list appends, capped sample and capped failures with the overflow counted |
| JobStore.GuardedWrite | jobs/store.go:604-638 | A write under a stale token changes nothing; a current one appends every candidate, fills the sample to ten and the failure report to its cap, and counts each failure row that found no room |
| JobStore.Store.FinishPreview | jobs/store.go:698-721 | Completes the preview and parks the job only while it is still in the preview phase |
| JobStore.Store.CasState | jobs/store.go:429-453 | Writes only over an expected state |
| JobRunner.World.Others | jobs/runner.go:228-293 | Whatever the rest of the fleet does between two round trips is a schedule, leaves this actor's memory alone, never takes back a decided position, and is nothing once its script is over |
| JobRunner.World.Log | jobs/store.go:604-690 | A round trip is one protocol action on the store everyone shares |
| JobRunner.Runner.Work | jobs/runner.go:355-400 | Working a claim ends, in a released session, by protocol actions only; with nothing in the way a preview is completed and an executing job done |
| JobRunner.Runner.Enumerate | jobs/runner.go:474-677 | With a setup that fails the job is failed; with a good one the enumeration completes a preview whose counts, sample and list are those of one pass, unless a command fails, a newer claim was granted, a pause or cancel was pending, or the scope is over the cap |
| JobRunner.Runner.WalkScope | jobs/runner.go:505-667 | The three nested loops end at the end of the frozen queue list, and unwind only for those reasons |
| JobRunner.Runner.EnumerateGroup | jobs/runner.go:551-666 | The page loop follows the cursor page by page until a short page, a vanished queue or an unwinding |
| JobRunner.Runner.EnterQueue | jobs/runner.go:512-550 | A resumed queue walks its frozen groups from the stored group and page; every later queue starts fresh |
| JobRunner.Runner.PutPage | jobs/runner.go:601-650 | The page's write is the protocol's; it is refused only under a newer claim, and a preview over the cap, in a scope over it, is left to fail |
| JobRunner.Runner.MatchPage | jobs/runner.go:585-600 | Collects exactly the page's matches, and the first ten of them |
| JobRunner.Runner.CheckCtl | jobs/runner.go:404-424 | Continues exactly when no pause or cancel is pending; else, unless the write fails or a newer claim was granted, the job is left canceled or paused as asked, and the request taken off |
| JobRunner.Runner.Execute | jobs/runner.go:767-926 | With nothing in the way the job is done; a finished execution within the cap has decided every match; it gives up only for a failed command, a newer claim, a pending request, a lost lease or a scope over the cap; a scope that does not compile fails the job |
| JobRunner.Runner.FetchBatch | jobs/runner.go:817-833 | Skipped grows by the references that are gone, failed by the re-fetches that failed, and the failure rows and the tasks to act on are those of the answers, in order |
| JobRunner.Runner.ActOnBatch | jobs/runner.go:843-871 | A task is acted on if and only if it still matches; acted grows by the acts done, skipped by the tasks that match no more or were already as wanted, failed by the acts that failed, and it stops early only when a command fails |
| JobRunner.Runner.PutBatch | jobs/runner.go:877-911 | A full batch moves the cursor by the references read; it gives up only for a failed command or a newer claim |
| JobOperators.Operator.Gate | jobs/store.go:364-384 | Accepts exactly what the execute gate allows |
| JobOperators.Operator.RequestExecute | jobs/store.go:364-411 | Accepted if and only if the gate passes on the job as it was read and the job is still previewing or preview_ready when the write lands; then the job runs, a delete only on a complete preview, a partial one only when acknowledged |
| JobOperators.Operator.RequestCancel | jobs/store.go:457-487 | Refused if and only if the job was read in a terminal state; a dormant job is canceled on the spot unless it woke up meanwhile, any other has a cancel pending |
| JobOperators.Operator.RequestPause | jobs/store.go:490-502 | Accepted if and only if the job was read previewing or running; then a pause is pending |
| JobOperators.Operator.RequestResume | jobs/store.go:505-527 | The read and the write are two round trips: accepted if and only if the job was read paused or with a pause pending on a claimable job; then no request is pending, and a job that was read as paused is claimable again whatever happened in between |
| SortedSet.BeforeIsOrder | errsig/indexer.go:469-474 | (score, id) is a strict total order, ids by bytes |
| SortedSet.AscendingUnique | errsig/indexer.go:469-474 | An ascending listing is determined by its members |
| ErrsigTail.WindowSplits | errsig/indexer.go:682-695 | A window anchored at the last score read is the ties already served followed by everything unread |
| ErrsigTail.PageIsNextIff | errsig/indexer.go:707-711 | A page starts with the first unread entry if and only if its offset counts the served ties still in the set |
| ErrsigTail.PageSkipsFront | errsig/indexer.go:707-785 | A page whose offset is k above the served ties still in the set skips exactly the first k unread entries; it skips none if and only if the ties its offset counts are all there or nothing is unread |
| ErrsigTail.TiesAfterPage | errsig/indexer.go:763-785 | After a page the served ties are the old ones and the page when it continues the anchor's score, else the page's own tail |
| ErrsigArchive.TiesKeptIff | errsig/indexer.go:682-692 | A change shifts the window if and only if it removes a served tie, and then it only shrinks it |
| ErrsigArchive.Archive.RangeByScore | errsig/indexer.go:707-718 | A page of the set as it is after everyone else has acted, removing what they like, or nothing exactly when the command fails; the unread entries in front of its offset are passed over, or not reached when the page is empty |
| ErrsigSweep.Tail.ExaminePage | errsig/indexer.go:718-759 | A page's entries past the cursor are examined once, in order, whether or not their tasks are still there |
| ErrsigSweep.Tail.CountTies | errsig/indexer.go:770-776 | Counts the page's trailing entries of one score |
| ErrsigSweep.Tail.ReAnchor | errsig/indexer.go:768-782 | Re-anchors on the cursor's score, extending the offset only for a page of nothing but ties |
| ErrsigSweep.Tail.TailQueue | errsig/indexer.go:680-789 | Ends under any removals, fails exactly when one of its range queries does, and examines exactly what began in the set past the cursor and up to the new one, in order, but for entries removed before a page returned them and entries a page passed over; short of the cap it reaches the bound but for entries an empty page did not reach; nothing is passed over or left while no served tie is removed |
| ErrsigQueue.SweepKeepsBooks | errsig/indexer.go:534-673 | A committed sweep, and a failed one, keep the books of a run of sweeps |
| ErrsigQueue.ExactlyOnce | errsig/indexer.go:469-474 | By the books every sweep keeps, every entry that ever was in the archive at or below the cursor was examined exactly once, in order, or had been removed before its turn, or was passed over |
| ErrsigQueue.QueueTail.Sweep | errsig/indexer.go:534-673 | Commits exactly when no range query fails and the merge is accepted; cursor and log are committed together or not at all; entries are passed over only by a committed sweep during which a served tie was removed |
| ErrsigQueue.QueueTail.Idle | errsig/indexer.go:675-692 | Whatever the archive does between two sweeps keeps the books, and adds nothing up to a bound already covered |
| ErrsigQueue.QueueTail.Run | errsig/indexer.go:534-673 | Any number of sweeps with any changes before, during and after each: what was examined is exactly, once and in order, what was ever in the archive up to the cursor and was neither removed before its turn nor passed over; lost entries are gone and were removed by some change; while no sweep sees a served tie removed, nothing is passed over and everything in the archive up to the cursor was examined; every sweep commits whose reads and merge succeed, and once the committed sweeps of such an archive could have examined more than they did, everything up to the lowest of their bounds has been examined |
| ErrsigQueue.OneTieRemoved | errsig/indexer.go:763-785 | A concrete archive of 202 tasks that died in one second: with one of the 200 served removed, the next page passes over a task that was there all along |
| ErrsigCursor.Decode | errsig/indexer.go:482-500 | Every encoded cursor is decoded to itself, whatever its id contains; only a malformed prefix restarts the tail |
| ErrsigCursor.ParseFormat | errsig/indexer.go:482-500 | Parsing undoes formatting on every int64 |
| ErrsigRotation.StartsAfterLast | errsig/indexer.go:514-529 | The rotation starts at the first queue after the last one visited, present or deleted, or wraps |
| ErrsigRotation.RotatedAt | errsig/indexer.go:514-529 | The reordered list is a rotation |
| ErrsigRotation.Rotation.Sweep | errsig/indexer.go:566-650 | A sweep visits a front of the rotation, at least one queue unless it fails; it goes on exactly as long as queues are left, the commands spent, counted queue by queue, are below the budget and nothing failed, so it overruns the budget by less than a chunk's metadata and one tail |
| ErrsigRotation.OneOutcome | errsig/indexer.go:566-650 | How far a sweep goes, and whether it fails, is settled by its budget, its costs and the failures it meets |
| ErrsigRotation.Rotation.Run | errsig/indexer.go:566-650 | A run of sweeps, some failing half-way, visits what their counts say; a sweep that meets no failure does not fail; once the counts add up to the number of queues, without failures at the latest after as many sweeps as there are queues, every queue has been visited |
| ErrsigRotation.EveryQueueVisited | errsig/indexer.go:570-650 | On a fixed queue set, sweeps whose visits add up to the number of queues visit every queue |
| ErrsigMatrix.Replaced | errsig/index.go:187-195 | A cell that changes changes what the matrix holds for its own (queue, type) alone |
| ErrsigMatrix.Signature.CellOf | errsig/index.go:187-195 | Finding or creating a cell changes no count |
| ErrsigMatrix.Signature.AddArchived | errsig/indexer.go:815-819 | The archived count stays the sum of the matrix |
| ErrsigMatrix.Signature.ZeroSwept | errsig/indexer.go:1077-1081 | Only the swept queues' retry counts are forgotten |
| ErrsigMatrix.Signature.DropEmpty | errsig/indexer.go:1095-1101 | Dropping zeroed cells loses no count |
| ErrsigMatrix.TotalsPositive | errsig/index.go:146-153 | A total is positive exactly when some cell is |
| ErrsigSampler.Resample | errsig/indexer.go:1064-1107 | One signature's swept queues hold this run's observation, its last-seen time the later of the two, everything else is as it was, and it disappears only when nothing is left of it |
| ErrsigSampler.SeenAt | errsig/indexer.go:1089-1091 | A signature is last seen at the later of its stored time and the observation's |
| ErrsigSampler.Store.SampleRetry | errsig/indexer.go:949-1152 | Accepted if and only if its token is still the newest and its lease held when the write arrives; then it replaces exactly what it saw of what stood when it began, changes no archived count, and leaves the sampled set equal to the signatures with a retry count |
| ErrsigSampler.Store.MergeTail | errsig/indexer.go:796-897 | Accepted under the same condition; then it adds the archived counts to what stood when it began and changes no retry count |
| ErrsigSampler.Store.EnforceCap | errsig/indexer.go:899-929 | Keeps the 1,000 signatures seen last, by (last seen, signature), unchanged, and evicts the others from the index and the sampled set alike |
| ErrsigSampler.Store.Others | internal/leasefence/leasefence.go:40-55 | Between the reads and the write of a holder, others change the store only by minting a newer token |
| AqlGate.GateStates | aql/aql.go:679-703 | A query passes exactly when some state answers every clause, and is refused at the first clause that leaves none |
| AqlGate.AllowedStates | aql/aql.go:764-780 | Exactly the states that answer every clause, in order |
| AqlGate.ResolveState | aql/aql.go:786-828 | The resolved state always answers the query: the one it names, else the one shown, else pending if that answers, else the first that does; only a caller's state that does not is refused |
| AqlPlan.Compile | aql/plan.go:132-225 | Fails exactly when the state cannot answer the query; else the range is the intersection of the clauses' ranges, the predicate their conjunction, and the queue and group those named last |
| AqlPlan.NextRunPlan | aql/plan.go:240-291 | A plan for next_run< or next_run>, counted from now or as a date: it matches the tasks whose set next run is at or before, or at or after, that moment, and its range holds the seconds that begin no later, or end later |
| AqlPlan.PastDuePlan | aql/plan.go:251-295 | A plan for past_due matches the tasks whose set next run is not after now, and its range holds the seconds that begin by now |
| AqlPlan.DiedPlan | aql/plan.go:253-316 | A plan for died> matches the tasks archived at least that long ago, judged by the last failure when the archiving time is unknown, and those where neither is known |
| AqlPlan.ExpiresPlan | aql/plan.go:255-326 | A plan for expires< matches the retained completed tasks whose retention ends by that moment, and its range holds the seconds that begin by then |
| AqlPlan.ClauseAgrees | aql/plan.go:240-321 | For a task derived from a score, a clause's predicate and its range agree except on the one second a fractional lower bound falls in |
| AqlPlan.CursorPlanAgrees | aql/plan.go:186-197 | For conjunctions of any length, a task matches exactly when its score is in range and no lower bound was rounded onto it |
| AqlPlan.HalfSecond | aql/plan.go:240-285 | A concrete query with a bound inside a second compiles to a cursor plan whose range holds a task that the query does not match |
| AqlPlan.ResolveAndCompile | aql/plan.go:132-155 | Compilation never fails on a resolved state |
| AqlCursor.RowsExact | aql_exec.go:270-279 | The rows of a listing are the live, in-range entries of its queues past the cursor, each once, in (queue, score, id) order |
| AqlCursor.ResumeIsRest | aql_exec.go:315-325 | Resuming from the n-th row leaves exactly what follows the first n rows |
| AqlCursor.WindowRows | aql_exec.go:313-349 | Moving the window to the cursor's score and filtering its ties owes the same rows |
| AqlCursor.TakeEntries | aql_exec.go:340-365 | Appends the live entries of a read, in order, until the page is full |
| AqlCursor.ListQueue | aql_exec.go:319-375 | Offsets, headroom and short reads neither skip nor repeat a row |
| AqlCursor.ListQueues | aql_exec.go:309-379 | Queue by queue, the page fills with the rows past the cursor, and is exhausted only when it does not fill |
| AqlCursor.ListPage | aql_exec.go:279-385 | A page is the first rows past its cursor, with a next cursor unless fewer than a page were left |
| AqlCursor.ListAll | aql_exec.go:279-385 | Following the cursor lists every live in-range task once, in order, in finitely many calls |
| AqlListing.ListMatching | aql_exec.go:279-385 | A compiled query over scores, listed page by page to the end, shows exactly the live tasks that meet every clause, each once and in (queue, score, id) order, and those whose second one of its lower bounds falls inside |
| AqlScan.LeftFromPlace | aql_exec.go:420-454 | A (queue, group, page) cursor leaves that page, the pages after it, the later groups and the later queues |
| AqlScan.MatchBatch | aql_exec.go:477-492 | Streams the page's matches in order up to the first at which the sink stops; it streams all of them if and only if no match follows that one |
| AqlScan.ScanGroup | aql_exec.go:454-499 | A group is examined page by page up to the place where the walk halts; a stopped walk resumes after the page it stopped in |
| AqlScan.ScanCall | aql_exec.go:408-502 | What a call examined and what its cursor leaves make up what it was given; it examines fewer than budget + 1000 tasks, streams every match among them unless the sink stops it, and then all but those behind the stop in its page: a stopped call loses nothing if and only if there are none |
| AqlScan.ScanFrom | aql_exec.go:408-502 | Calls resumed from any cursor to the end, each under a sink of its own: all matches from there on are streamed if and only if no stop passed over one, and as many are missing as the stops passed over |
| AqlScan.OneOfTwo | aql_exec.go:485-491 | Two matching tasks and a sink that stops at the first: resumed to the end, the second is never streamed |
| AqlScan.ScanToEnd | aql_exec.go:408-502 | Resumed calls stream exactly the matches of one unbounded scan, finitely many for any budget of at least one |
| MsgpackFormat.BigEndianRoundTrip | payload_format.go:204-215 | Big-endian fields and numbers correspond one to one |
| MsgpackLaws.Complete | payload_format.go:217-302 | Every encoding of the supported formats within the depth limit is read back to its meaning, taking exactly its bytes, whatever follows |
| MsgpackLaws.Sound | payload_format.go:217-302 | Whatever is read is such an encoding and means what was read |
| MsgpackLaws.AppendedIsIgnored | payload_format.go:187-194 | A successful read is unchanged by appended bytes |
| MsgpackLaws.EncodingsArePrefixFree | payload_format.go:217-302 | No encoding is a proper front of another, and none has two meanings |
| MsgpackLaws.EveryEntryShownIff | payload_format.go:366-393 | A map shows every entry if and only if no two keys are shown as the same string |
| MsgpackLaws.KnownMap | payload_format_test.go:119-127 | The bytes 81 01 02 are the map {1: 2}, its key shown as a string |
| MsgpackLaws.KnownNumbers | payload_format.go:262-275 | A 16-bit unsigned 300 and a 16-bit two's complement -129 are read as such |
| MsgpackFormat.BinaryShown | payload_format.go:339-352 | Printable text is shown as it is, any other binary as "0x" and two lower-case digits a byte that read back to its bytes |
| MsgpackDecoder.Decoder.UInt | payload_format.go:204-215 | The byte loop reads the big-endian number |
| MsgpackDecoder.Decoder.DecodeValue | payload_format.go:217-302 | The decoder ends, stays in bounds, and reads exactly what the format says |
| MsgpackDecoder.Decoder.DecodeCounted | payload_format.go:281-298 | Refusing a count above the buffer's size refuses nothing readable |
| MsgpackDecoder.Decoder.DecodeArray | payload_format.go:354-364 | Reads its items in order |
| MsgpackDecoder.Decoder.DecodeMap | payload_format.go:366-382 | Reads keys and values in turn, a later equal key replacing an earlier one |
| MsgpackDecoder.DecodePayload | payload_format.go:157-175 | A payload shows as a value if and only if all of it is one encoded array or map |
| StatsConsumers.PruneTwice | stats/baseline.go:405-415 | Pruning now and again later is pruning once later |
| StatsConsumers.ChangesCount | stats/baseline.go:396-403 | The change-points alone say which counts were in force |
| StatsConsumers.WindowRefinesHistory | stats/baseline.go:396-442 | The sparse window answers what the whole history would: the counts in force over the last 30 minutes, and whether the queue was observed for at least 25 |
| StatsConsumers.Windows.PruneWindow | stats/baseline.go:408-415 | The pruning loop keeps the newest point before the cutoff and everything after it |
| StatsConsumers.Windows.ObserveConsumers | stats/baseline.go:384-394 | Every sweep keeps every window tied to its queue's history, and forgets queues that are gone |
| StatsConsumers.Windows.Inputs | stats/baseline.go:418-441 | The reported maximum is the largest count in force over the drop window, coverage is exact |
| StatsAttention.GroupMemory | stats/attention.go:361-391 | What is remembered of a queue's group stall is what its last examination and its groups since then call for |
| StatsAttention.RaisedOnceHeld | stats/attention.go:210-475 | NO_CONSUMERS, ORPHANS, DEPTH_ANOMALY and CONSUMERS_DROPPED are raised once they have held for two sweeps running, every other condition at the first |
| StatsAttention.StallMeans | stats/attention.go:361-391 | A queue is stalled exactly when the last look at its groups found a stall and it has had groups since; the finding shows what that look saw and when the unbroken stall began |
| StatsAttention.Evaluator.Observe | stats/attention.go:182-190 | Consecutive and since are those of the unbroken run of sweeps |
| StatsAttention.Evaluator.Evaluate | stats/attention.go:198-531 | A sweep raises exactly the findings the whole history calls for, and cutting the report to 20 leaves the memory alone |
| SearchPage.PageWindow | task_search_handlers.go:126-142 | On all machine integers, the window is the unbounded one, saturated |
| SearchPage.PageBounds | task_search_handlers.go:182-196 | On all machine integers, the window clamped to the total |
| SearchPage.PageCollector.Sink | task_search_handlers.go:157-163 | The collector's rows are the page of everything streamed so far |
| SearchPage.PagesTile | task_search_handlers.go:126-142 | The pages 1 to n of a positive size are together the front of the rows, so enough pages show every row once and in order |
| SearchPage.FirstPage | task_search_handlers.go:127-129 | A page number of one or less shows the first rows |
| SearchScan.ScanMatching | task_search_handlers.go:444-514 | What was examined is a front of the scope, and all of it if and only if the budget exceeds the tasks in front of the last page that holds anything; the rows are the page of the matches in it and the count their number; truncation comes exactly where the budget is found spent, by less than one page more than the budget, and with nothing left exactly when the budget falls within that last page and that page is full or something empty follows |
| SearchBudget.CutShortIff | task_search_handlers.go:430-514 | The order of the budget checks meets the closed condition for a report of truncation with nothing left |
| SearchBudget.WithinBudget | task_search_handlers.go:459-514 | A budget above the number of tasks in scope never truncates a scan |
| SearchScan.LastPageFull | task_search_handlers.go:470-512 | A scope that fills its listing pages exactly, under a budget of as many tasks, is reported truncated though every task was examined |
| SearchScan.EmptyQueueFollows | task_search_handlers.go:508-510 | Three tasks in one queue, none in the next, and a budget of three: reported truncated though every task was examined |

## Left out

- Redis, the asynq Inspector and `internal/leasefence` are abstract maps, sorted sequences and atomic guarded steps; key TTLs and expiry are ignored.
- Job listing, the audit stream, progress events, cost classes, throttling sleeps, the reason and throttle fields, and the rate limits have no part in the promises proved.
- Candidate references are (queue, id) pairs; their string encoding with a separator byte, and the trimmed payload in sample rows, are not modelled.
- The queue list a job freezes, and a scan's resolved and sorted queue and group lists, are parameters.
- Matchers are a fixed predicate on tasks; what env-dependent predicates observe, and when, is not modelled.
- Whether the acts on tasks are themselves exclusive: Inspector verbs are not fenced, only the recorded progress is.
- Delivery of pause and cancel flags: a pause write can clear a cancel that arrived after it was read, and nothing promises otherwise.
- JobStates.TerminalForever: stated of schedules whose resume writes are safe, because `JobLimits.SplitResumeLeavesTerminal` shows it false of others.
- JobStates.StatesAgree: stated of the same schedules, because `JobLimits.SplitResumeUndoesExecute` shows it false of others.
- JobRunner.World.Others: the other actors' actions come from a finite script per round trip, and this actor's failing commands from another; nothing is known about either, but that both end.
- JobRunner.Runner.FetchBatch: what the Inspector answers to a re-fetch or an act is arbitrary.
- JobOperators.Operator.RequestCancel: an operator request that fails half-way because Redis does is not modelled.
- JobStore.Store.WriteProgress: the script is one step; that a batch above 100 commands is split by `leasefence.Exec` concerns the indexer's writes, taken here as atomic.
- ErrsigSweep.Tail.TailQueue: scores are whole seconds, as asynq writes them; templates, hashes, first and last seen, and the capped task references gathered on the way are not modelled.
- ErrsigArchive.Archive.RangeByScore: additions at or below the bound of a sweep that has begun are not performed by the modelled environment.
- ErrsigRotation.Rotation.Sweep: what one queue's tail costs is an input; the spend of the merge phase, which comes after the visits, is left out.
- ErrsigSampler.Store.SampleRetry: the observation is given, not collected from the retry sets; trend snapshots, first-seen times and references are left out; the matrix is in no particular order; unfenced off-lease writes and the split of a batch into chunks are not modelled.
- ErrsigSampler.Store.MergeTail: pruning of the index by age, which leaves a signature's hash behind until it expires, is not modelled.
- ErrsigSampler.Store.EnforceCap: the index is listed from the signatures' last-seen times instead of being stored beside them.
- AqlPlan.Compile: the lexer, operator search and value parsing are left out, clauses arrive parsed; scan-only predicates are an arbitrary predicate per clause; rejection messages and positions other than the refused clause are left out.
- AqlCursor.ListPage: the cursor's wire form (base64 over JSON) is opaque, scores are whole numbers, and the total count reported beside a page is left out.
- MsgpackDecoder.Decoder.DecodeValue: UTF-8 validity, printability and the `%v` rendering of non-string keys are parameters; floats are their bits; signed and unsigned integers are one kind of number.
- MsgpackDecoder.DecodePayload: the final rendering as indented JSON, which refuses NaN and infinities, is left out.
- StatsConsumers.Windows.ObserveConsumers: seeding the windows from stored series, and the learning stamps, are left out.
- StatsAttention.Evaluator.Evaluate: the detectors' own thresholds are inputs, the ranking is a parameter, and SCHEDULER_GONE, which keeps no memory, is left out.
- AqlScan.ScanCall: an error of the listing, which ends a call without a cursor, is left out.
- SearchScan.ScanMatching: a sink that stops this scan is left out; a queue that is gone is gone for all of its groups; fewer than 2^63 - 1 tasks are in scope.
- Saved views, HTTP handling, hygiene reports, coverage rows and payload hex dumps are left out as plumbing or easy members.
