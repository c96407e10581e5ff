# Verified models of Recertia's harder algorithms

A Dafny model of the parts of Recertia whose correctness depends on more than one function at a
time: chunked readers that must equal a simple list, protocols over two stores, a cyclic route
table, interval arithmetic, and small bounded state machines. `dafny verify dfyconfig.toml` checks
everything.

| file | models |
|---|---|
| `RunListing.dfy` | the merged run list: three sources, keyset pages, the floor, the cursor walk |
| `StampText.dfy` | the date texts that the list's queries compare |
| `EventFollow.dfy` | the byte-offset log follower, its cursors, and the simple reader it must agree with |
| `FollowLoop.dfy` | the blocking stream over a follower, with its deadline and keep-alives |
| `EventLog.dfy` | the writer of the event log |
| `FollowLimiter.dfy` | the caps on open follow streams |
| `SkillDag.dfy` | the cycle check of a skill version |
| `Idempotency.dfy` | the idempotency rows: reserve, take over, complete, release |
| `KeyedBind.dfy` | keyed step runs as interleaved steps over the program store and the idempotency store |
| `Fencing.dfy` | when the leases of those rows fence out a slow holder, for any clock |
| `StepRefresh.dfy` | the status refresh of a migration program and its pinned save |
| `GoalCompile.dfy` | goals compiled to criteria, and what the criteria check |
| `RunGraph.dfy` | the route table and every walk through it |
| `Intervals.dfy` | Wilson and Newcombe score intervals over the reals |
| `OidcClientKey.dfy`, `OidcPending.dfy` | who a login start belongs to, and the bounded map of pending logins |
| `AuditedState.dfy` | the compare-and-swap projection of audited task state |
| `JobQuota.dfy` | the weekly quota and what it admits |
| `QuotaSessions.dfy` | the sidecar file of the quota and sessions that share it |
| `QuotaLedger.dfy` | the reservation ledger and a runner that lives into a new week |
| `Counters.dfy` | the two capped distinct counters |
| `Ratchet.dfy` | the mypy baseline: printer, reader, comparison |
| `Prelude.dfy` | shared datatypes, digits and the order of texts |

## How to read it

Where the source changes things step by step, a class or a method with loops does the same and is
proved equal to a function; the properties are lemmas about that function. Concurrent calls (keyed
binds, quota reservations) are state machines: each transaction is one step, a run is any sequence
of steps, and a request that crashes takes no further step.

Assumptions, each visible as a parameter or a `requires`:

- SQL page queries return the first rows of their table, in index order, that lie strictly inside
  the bounds; a checkpoint query with a date but no run id keeps the whole second.
- `json.loads` is an unknown function on lines that does not see a trailing newline; `int` is an
  unknown function outside plain decimal numerals; IP parsing is an unknown function that finds no
  address in the empty text; the square root is any function that is one on non-negative numbers.
- Clocks are inputs. The clock of the store protocol may be set to any time at any moment; the
  follow loop's keep-alives assume a clock that does not step back, as a monotonic one.
- In the run graph only `solve` charges attempts, at least one per entry; only `intake` sets the
  criteria; a refused fan-out signals `budget`, from which nothing is retried; `join` always leaves
  an audit and scores again.

Where the code and its documentation differ, the model follows the code:

- `check_offset` is documented to accept only the end of a logged event. It accepts the end of any
  line; `AcceptedIsEventEnd` says exactly when the two agree, `BlankLineAccepted` is an example.
- The engine calls a run of more than 500 hops a routing defect. A legal run can be longer as soon
  as 99 attempts are allowed (`StepLimitIsSafe`).
- A failure cluster is documented to keep its counts honest. Past the sample cap a repeated id is
  counted again, so `eligible` is right for every history iff both minimums are at most the cap
  plus one (`EligibleIsRightIff`).
- A lease is documented to fence out slow holders. It does on every run whose clock is never more
  than `back` behind its latest reading iff `back` is below both the lease time and the time to
  live of a row (`FencesIff`); `RelapseBreaks` gives the failing run for every larger `back`.
- `QuotaSidecar` used on its own does not keep the sum of a week. The file records what ran iff what
  it misses equals what it carries from before (`RecordedIffNotOvertaken`); a schedule always adds up
  iff whoever works has opened in the week and nobody else has worked since (`ScheduleAddsUpIff`).
  `JobRunner` with a path always goes through the ledger, where no interleaving overspends
  (`NoInterleavingOverspends`).
- A new week is documented to start from zero. A runner that lives into it admits against the spend
  it has in hand until a reservation of anybody's opens the week. It runs the jobs of a runner with
  nothing spent iff every pot that has any room was unspent, with free class slots (`NewWeekIff`);
  after a job that settled it never does (`SettledStartsStale`).
- `charge` counts a job of the empty task class towards that class; a reservation does not
  (`ReserveIsCharge`).
- "All required criteria passed" is matched by criterion id and leaves out criteria whose proof is
  not valid. Entering `distill` shows a passed machine check iff some required check has a valid
  proof (`NeverVacuousIff`); the id match alone needs ids that no judge shares (`TestAloneIff`,
  `SharedIdPasses`).

## Model

| member | source | states |
|---|---|---|
| RunListing.KeysAreOrdered | src/recertia/app/run_listing.py:75-78 | the run key is a strict total order: trichotomy, transitivity, undated runs below all dated ones, and dates before ids |
| RunListing.SortedUnique | src/recertia/app/run_listing.py:134-135 | a strictly descending list is determined by its rows, so "the sorted list" is well defined |
| RunListing.SortDescendingSorts | src/recertia/app/run_listing.py:207 | the in-place sort gives a strictly descending list with exactly the rows it was given |
| RunListing.MergeSorted | src/recertia/app/run_listing.py:120 | merging two descending streams of different runs gives the descending stream of both |
| RunListing.NextChunk | src/recertia/runtime/registry.py:137-156 | a query restarted under the last row of a chunk returns exactly the rows not read yet |
| RunListing.CheckpointBounds | src/recertia/app/run_listing.py:222-231 | the two forms of the checkpoint bound keep exactly the rows below the cursor, also for a cursor inside a second |
| RunListing.MemoryStream | src/recertia/app/run_listing.py:178-208 | the in-memory records that match, with stored dates, below the cursor, in descending order |
| RunListing.MemoryRowIs | src/recertia/app/run_listing.py:195-208 | an in-memory row has the record's columns and the date of its checkpoint, else of its registry row, else its own |
| RunListing.CheckpointStream | src/recertia/app/run_listing.py:211-250 | the chunked scan yields every matching checkpoint row below the cursor that has no in-memory record, once, in order |
| RunListing.RegistryStream | src/recertia/app/run_listing.py:253-303 | the chunked scan yields every registry row strictly between floor and cursor without a record or a checkpoint, once, in order |
| RunListing.ListingIsTheList | src/recertia/app/run_listing.py:99-134 | the three streams, merged, are the sorted list with exactly one row per matching run |
| RunListing.ListedRowsStandForRuns | src/recertia/app/run_listing.py:99-134 | a row is listed iff it matches the filter and stands for its run: the record with its stored date, without one the checkpoint row, without that the registry row |
| RunListing.FloorKeepsPage | src/recertia/app/run_listing.py:121-134 | stopping the registry scan at the last candidate of the other sources never changes the page |
| RunListing.ListRunPage | src/recertia/app/run_listing.py:81-140 | for any data, filter, limit and cursor: an error iff the limit is below 1, else the first `limit` rows below the cursor of the one sorted list, and a next cursor iff more rows remain |
| RunListing.WalkListsEverything | src/recertia/app/run_listing.py:94-140 | following the cursor from the start ends and lists every matching run exactly once in descending order |
| RunListing.WalkSurvivesChanges | src/recertia/app/run_listing.py:81-140 | while runs come, go and change between pages, keys are seen in strictly descending order, only rows of some page's moment are seen, and a run listed with one key all along is seen exactly once |
| RunListing.RedatedRunIsMissed | src/recertia/app/run_listing.py:94-140 | a run dated anew above the cursor between two pages is never seen |
| StampText.IsoTextOrder | src/recertia/runtime/registry.py:137-154 | in the registry text order is time order, also between a whole second and a moment inside it, and the empty text is below every date |
| StampText.SecondsTextOrder | src/recertia/graph/store.py:358-373 | in the checkpoint table text order is the order of whole seconds |
| EventFollow.FramesAreLines | src/recertia/api/event_follow.py:198-204 | the frames of a log are exactly its complete, parsable, in-limit lines, with the id just past the newline |
| EventFollow.FrameIdsRise | src/recertia/api/event_follow.py:199-203 | frame ids strictly rise |
| EventFollow.ConsumeDelivers | src/recertia/api/event_follow.py:183-204 | one pass over any window: what was still to be delivered is what the pass delivered followed by what is still to be delivered |
| EventFollow.RunDelivers | src/recertia/api/event_follow.py:152-204 | the same for every growth of the log and every schedule of passes |
| EventFollow.FollowsTheLog | src/recertia/api/event_follow.py:138-144 | a new follower emits a prefix of the log's frames: nothing lost, repeated, reordered or invented |
| EventFollow.NoMoreMeansCaughtUp | src/recertia/api/event_follow.py:174-175 | on a still log a pass without `more` leaves no complete line unread |
| EventFollow.MoreMeansUnread | src/recertia/api/event_follow.py:174-175 | a pass asks for another one only after it moved on and with bytes left to read |
| EventFollow.StartAfterLine | src/recertia/api/event_follow.py:128-135 | the bounded look back from an offset finds the line just before it |
| EventFollow.StartInsideLine | src/recertia/api/event_follow.py:128-135 | from the middle of a line the run is not known to be over |
| EventFollow.ResumeAtFrame | src/recertia/api/event_follow.py:146-150 | a follower restarted at an emitted id has the state and the remaining frames of the original |
| EventFollow.EmittedIdsAccepted | src/recertia/api/event_follow.py:82-96 | every emitted id is accepted as a resume offset, now and after any growth |
| EventFollow.AcceptedIsEventEnd | src/recertia/api/events.py:99-108 | an accepted offset ends a delivered event iff the line before it is in-limit and parses |
| EventFollow.OffsetAcceptedIff | src/recertia/api/event_follow.py:82-96 | the start of every log and the end of each of its lines is accepted, and no other offset; beyond the end is told apart |
| EventFollow.BlankLineAccepted | src/recertia/api/event_follow.py:82-96 | an accepted offset that ends no event |
| EventFollow.OffsetAfterEventId | src/recertia/api/event_follow.py:99-125 | the second chunked reader returns the id of the event's first frame, or nothing when no frame has it |
| EventFollow.EventFollower.constructor | src/recertia/api/event_follow.py:146-150 | a follower starts at its offset, knowing whether the event before it was terminal |
| EventFollow.EventFollower.ConsumeWindow | src/recertia/api/event_follow.py:183-204 | updates offset, skipping flag and terminal flag as the pass function says |
| EventFollow.EventFollower.Poll | src/recertia/api/event_follow.py:152-175 | one pass with its `done` and `more`, for a missing, shrunk or growing log |
| EventFollow.EventFollower.Drain | src/recertia/api/event_follow.py:218-227 | the `more` loop ends, with every complete line of a still log delivered |
| EventFollow.ListAfter | src/recertia/api/events.py:66-85 | over lines with universal newlines, the simple reader lists the values after the marker, or raises on the first bad line |
| EventFollow.RaisesIff | src/recertia/api/events.py:66-85 | the simple reader raises iff some line is not JSON, or is no object where the marker is still looked for |
| EventFollow.ListsValuesPast | src/recertia/api/events.py:66-85 | otherwise it lists exactly the values of the lines past the marker, in order |
| EventFollow.TextLinesAre | src/recertia/api/events.py:73-74 | the text reader finds the same lines whether they end in a newline, a return, or both |
| EventFollow.ReadersAgree | src/recertia/api/events.py:66-85 | on well-formed logs without carriage returns, listing after an id and following from its offset give the same events |
| FollowLoop.IterFollow | src/recertia/api/event_follow.py:207-235 | the loop sends, for any sequence of polls and clock readings, the chunks of the stream function, and leaves the follower in its state |
| FollowLoop.StreamDelivers | src/recertia/api/event_follow.py:216-222 | whatever the polls find, the frames sent followed by what is still to be delivered are what there was to deliver |
| FollowLoop.EndedIff | src/recertia/api/event_follow.py:226-227 | the stream has ended iff some poll was done or past the deadline, and nothing after that poll changes anything |
| FollowLoop.DoneIsComplete | src/recertia/api/event_follow.py:172-174 | a poll that is done on a log not cut off has delivered all of it, and its last event is terminal |
| FollowLoop.DoneIff | src/recertia/api/event_follow.py:152-175 | a poll is done iff the file was cut off, or it read to the end and the last event sent finished or cancelled the run |
| FollowLoop.KeepAlivesAreDue | src/recertia/api/event_follow.py:230-235 | a keep-alive leaves only after a full interval of silence, and after a turn that waits the silence is shorter than one interval |
| EventLog.RunEventLog.Append | src/recertia/api/events.py:43-64 | on any log - torn, malformed, over-long - the event is written after the last byte and adds at most the frame of the unfinished line with it |
| EventLog.AppendAddsOneLine | src/recertia/api/events.py:59-63 | on every log a new line adds exactly the frame of the unfinished line with it, if that has one |
| EventLog.DeliveredIff | src/recertia/api/events.py:59-63 | an appended event is delivered iff the unfinished line before it leaves it readable and in limit; after a finished line that is its own encoding |
| FollowLimiter.FollowLimiter.Acquire | src/recertia/api/event_follow.py:279-304 | a slot is refused exactly when a cap is reached, the global one first; the counters are the numbers of open slots |
| FollowLimiter.FollowLimiter.Release | src/recertia/api/event_follow.py:291-302 | a release frees its slot once, and does nothing after that |
| FollowLimiter.OneReleased | src/recertia/api/event_follow.py:297-302 | releasing an open slot lowers the overall count and its own tenant's by one, and no other tenant's |
| SkillDag.TopologicalMeansAcyclic | contracts/skill.py:207-225 | a topological order rules out every cycle |
| SkillDag.StuckMeansCycle | contracts/skill.py:223-224 | steps that all wait for each other contain an actual cycle |
| SkillDag.UniqueByCount | contracts/skill.py:190-192 | the length comparison says exactly that ids are unique |
| SkillDag.UniqueMeansDistinct | contracts/skill.py:190-192 | unique ids are pairwise different at different positions |
| SkillDag.CheckBindings | contracts/skill.py:193-206 | the binding checks pass iff every binding names another known step and one of its outputs; else the first fault is raised |
| SkillDag.FaultMeans | contracts/skill.py:193-206 | with unique ids a binding is good iff another listed step has the source id and lists the output, and each fault says which part is missing |
| SkillDag.BuildGraph | contracts/skill.py:208-213 | the in-degrees are the numbers of dependencies, the lists the dependents |
| SkillDag.EmptyQueueDecides | contracts/skill.py:214-224 | when the queue is empty either all steps are in topological order or a cycle is among the rest |
| SkillDag.CountVisited | contracts/skill.py:214-224 | the loop visits all steps iff the binding graph has no cycle |
| SkillDag.ValidateSteps | contracts/skill.py:188-225 | the validator returns iff ids are unique, every binding names a listed output of another listed step, and there is no cycle |
| Idempotency.IdempotencyStore.DoReserve | src/recertia/persistence/idempotency.py:164-206 | sweep, replay, mismatch, wait, take-over or fresh row, with the whole new table |
| Idempotency.ReserveMeans | src/recertia/persistence/idempotency.py:164-206 | which of the five answers a reserve gives, by the row before the call, and the whole row after it |
| Idempotency.ExpiredIsFree | src/recertia/persistence/idempotency.py:164-178 | the rows a sweep may take are those whose key could be reserved anew |
| Idempotency.CompleteMeans | src/recertia/persistence/idempotency.py:208-229 | which of the three answers a completion gives, by the row before the call, and what it changes |
| Idempotency.CompletionMeans | src/recertia/persistence/idempotency.py:208-229 | completed iff the row now records this body and run, superseded iff another lease holds it; nothing but the lease's own pending row changes |
| Idempotency.ReleaseMeans | src/recertia/persistence/idempotency.py:231-243 | a release lets go of the lease's own pending row and of nothing else |
| Idempotency.ReserveAnswers | src/recertia/persistence/idempotency.py:164-206 | a row never answers for another body, and a pending row never replays |
| KeyedBind.StepKeeps | src/recertia/app/programs.py:397-457 | every action of every request, in any order, keeps the protocol invariant |
| KeyedBind.CompleteMeansBound | src/recertia/app/programs.py:400-402 | on every run a complete key row names a run that some saved version had its step bound to |
| KeyedBind.AnswersAgree | src/recertia/app/programs.py:409-419 | every two successful replies in one life of a key name the same run, which a saved version bound |
| KeyedBind.LivesEndByExpiry | src/recertia/persistence/idempotency.py:164-206 | a life of a key ends only when a reservation finds its complete row expired |
| KeyedBind.AnswersAgreeUntilExpiry | src/recertia/app/programs.py:409-457 | after a bind answered, every later answer to the key names the same run until the clock reaches the row's expiry |
| Fencing.SteadyClockFences | src/recertia/persistence/idempotency.py:15-26 | while the clock lags its latest reading by less than the lease and the time to live, completing or releasing changes a row only for the request that reserved it last |
| Fencing.RelapseBreaks | src/recertia/persistence/idempotency.py:164-243 | for any larger lag, a run in which a superseded holder writes |
| Fencing.FencesIff | src/recertia/persistence/idempotency.py:15-26 | leases fence on every run of a clock that lags by at most `back` iff `back` is below the lease time and the time to live |
| KeyedBind.BindSavedOnce | src/recertia/app/programs.py:571-577 | a bind is saved at most once while no other request rebinds the step |
| KeyedBind.VersionsAreSerial | src/recertia/app/programs.py:757-776 | every saved version is one route's change of the version right before it: nothing is lost |
| KeyedBind.HistoryGrows | src/recertia/app/programs.py:757-776 | a version once saved is never replaced |
| KeyedBind.KeyedSaveChangesOneBinding | src/recertia/app/programs.py:581-611 | a keyed save changes the binding of its own step in the version before it and no other |
| KeyedBind.FreshBindLands | src/recertia/app/programs.py:420-457 | with a free key and the step bound elsewhere, claim, load, accepted bind and finish answer with the run, add one version that binds this step and no other anew, and complete the row |
| KeyedBind.BoundAlreadyAnswers | src/recertia/app/programs.py:573-579 | a request for the run the step is bound to answers with it and saves nothing |
| KeyedBind.RejectedBindIsRefused | src/recertia/app/programs.py:427-441 | a bind that is not accepted is refused, changes nothing and frees the key |
| KeyedBind.OvertakenBindIsRefused | src/recertia/app/programs.py:757-776 | a bind on a version that another save replaced is refused, leaves that save in place and frees the key |
| KeyedBind.ReplayAnswersIff | src/recertia/app/programs.py:409-419 | a repeat of a completed request answers with its run iff the step is still bound to it, and changes neither store |
| KeyedBind.OtherBodyIsRefused | src/recertia/app/programs.py:403-404 | a key in use for another body refuses and changes nothing |
| KeyedBind.RetryRecovers | src/recertia/app/programs.py:420-457 | after a crash past the bind, a retry past the lease answers with the bound run, completes the row and saves nothing |
| KeyedBind.RetryWaits | src/recertia/app/programs.py:405-408 | inside the lease the retry is told to wait and nothing changes |
| StepRefresh.RefreshSettles | src/recertia/app/programs.py:814-856 | one refresh reaches agreement between statuses and runs |
| StepRefresh.WatchedStepFollowsRun | src/recertia/app/programs.py:814-835 | a step in flight succeeds iff the gate names its run's word, and fails iff the run has one outside the gate and is neither queued nor running |
| StepRefresh.OtherStepsOnlyGetReady | src/recertia/app/programs.py:814-856 | any other step only goes from planned to ready, in an active program once the step before it is done |
| StepRefresh.ProgramFollowsSteps | src/recertia/app/programs.py:838-850 | an active or blocked program is blocked iff a step failed, completed iff all are done, else active; other programs keep their status |
| StepRefresh.FixedIffConsistent | src/recertia/app/programs.py:814-856 | the programs a refresh leaves alone are exactly those that agree with their runs |
| StepRefresh.RefreshIdempotent | src/recertia/app/programs.py:814-856 | refreshing twice is refreshing once |
| StepRefresh.RefreshKeepsBindings | src/recertia/app/programs.py:814-856 | a refresh changes statuses only |
| StepRefresh.ProgramRow.Put | src/recertia/programs/store.py:57-123 | a save pinned to a version lands iff that version is stored, and bumps it by one |
| StepRefresh.ProgramRow.Get | src/recertia/app/programs.py:189-206 | a read saves only a real change and never overwrites a write that landed in between |
| GoalCompile.Compile | contracts/goal.py:171-332 | one criterion per desired state and compiled constraint, in order; it fails iff one of them does not compile, with the error of the first |
| GoalCompile.CompileKeeps | contracts/goal.py:171-332 | ids, weights and timeouts are kept and only a judge state gives a judge criterion |
| GoalCompile.CompiledMeansGoal | contracts/goal.py:171-332 | compilation preserves meaning: in any world whose shell and assertion language mean what they say, all criteria pass iff all desired states are reached and all compiled constraints kept |
| GoalCompile.CompileFailsIff | contracts/goal.py:141-169 | what does not compile, and why: an unsafe path, a text that would break its assertion, a value of the wrong type |
| GoalCompile.CompiledGoalIsHard | contracts/goal.py:130-138 | a valid goal compiles to at least one required criterion that a machine checks |
| RunGraph.ExactlyOneRoute | contracts/graph.py:87-233 | once a node's result is set exactly one route is legal, before that none; at `review` always the two |
| RunGraph.BoundFalls | contracts/graph.py:75-84 | a measure of attempts left and node rank falls on every edge |
| RunGraph.WalksAreShort | contracts/graph.py:87-223 | every run ends: with m attempts it makes at most 5m + 6 hops |
| RunGraph.SolveAtMostMaxAttempts | contracts/graph.py:75-84 | `solve` is entered at most `max_attempts` times |
| RunGraph.DistillMeansPassed | contracts/graph.py:51-68 | entering `distill` means all required criteria passed, no signal is set and, from `join`, a non-empty set of complete audits |
| RunGraph.ValidateDecides | contracts/graph.py:142-167 | from `validate` a walk goes to `join` iff there are branches, and else to `distill` iff every criterion of full weight has a passed result and no signal is set |
| RunGraph.JoinDecides | contracts/graph.py:60-68 | from `join` a walk goes to `distill` iff there are audits, all complete, and every criterion of full weight has a passed result |
| RunGraph.RetryMeansProgress | contracts/graph.py:75-84 | a classified failure is retried iff it is neither of criteria nor of budget, attempts are left, and the last two scorings differ |
| RunGraph.JoinMeansBranches | contracts/graph.py:142-148 | `join` is entered only from `validate`, with branches |
| RunGraph.FinalizeOnce | contracts/graph.py:220-222 | `finalize` ends a run and at most one of store, dead end and rejection comes before it |
| RunGraph.StoredMeansPassed | contracts/graph.py:192-220 | storing goes through review and distill, after all required criteria passed |
| RunGraph.DistillIsEarned | src/recertia/nodes/validate.py:55-101 | entering `distill` means every required criterion with a valid proof has actually passed |
| RunGraph.NeverVacuousIff | src/recertia/nodes/validate.py:55-101 | a scored, passing state without a signal always shows a passed required machine check iff one has a valid proof |
| RunGraph.TestAloneIff | contracts/graph.py:51-68 | the required-pass test, which matches ids, always shows one iff some required id belongs to proven machine checks only; with unique ids that is iff one has a valid proof |
| RunGraph.SharedIdPasses | contracts/graph.py:51-68 | a failing check and a passing judge with one id: the test passes though nothing was earned |
| RunGraph.DistillIsNeverVacuous | contracts/graph.py:51-56 | for criteria compiled from a valid goal with valid proofs, entering `distill` shows a passed required machine check |
| RunGraph.NoRequiredCriteriaAlwaysPass | contracts/graph.py:51-56 | with no results the test passes iff nothing is required |
| RunGraph.LongWalkIsWalk | contracts/graph.py:87-223 | the bound of 5m + 6 hops is reached by a walk the nodes can make, for every m of at least one |
| RunGraph.StepLimitIsSafe | src/recertia/graph/engine.py:57-59 | no legal run passes 500 hops iff at most 98 attempts are allowed |
| Intervals.WilsonIsTheScoreInterval | src/recertia/stats.py:17-35 | Wilson's interval is exactly where (p-x)^2 <= z^2 x(1-x)/n, its ends are the two roots, it holds p and lies in [0,1] |
| Intervals.WilsonEnds | src/recertia/stats.py:30-32 | the clamps change nothing |
| Intervals.RootFailsIff | src/recertia/stats.py:17-35 | the square root fails iff the sample has so many more successes than trials that the radicand is negative |
| Intervals.WilsonRises | src/recertia/stats.py:17-35 | both ends rise strictly with the successes |
| Intervals.WilsonMirrors | src/recertia/stats.py:17-35 | exchanging successes and failures mirrors the interval |
| Intervals.NewcombeContains | src/recertia/stats.py:38-54 | the interval holds the observed difference and lies within the arms' extremes, so in [-1,1] |
| Intervals.NewcombeEnds | src/recertia/stats.py:50-54 | each end lies as far from the observed difference as the two Wilson distances on its side, put together as the sides of a right angle |
| Intervals.NewcombeSwaps | src/recertia/stats.py:38-54 | swapping the arms negates and swaps the ends |
| Intervals.NoInterval | src/recertia/stats.py:46-49 | exactly when there is no interval, and when an unsupported level is noticed |
| OidcClientKey.WalkFromTheRight | src/recertia/api/console_auth.py:566-575 | the walk finds the last hop that is not a trusted proxy |
| OidcClientKey.FindClientKey | src/recertia/api/console_auth.py:488-563 | the loops compute the key function, in the source's order of checks |
| OidcClientKey.LastClauseIsRedundant | src/recertia/api/console_auth.py:538-541 | without the last clause of the self-hop test every key is the same |
| OidcClientKey.NoMintedKeys | src/recertia/api/console_auth.py:509-522 | every key is a fixed one, the peer's, or that of a hop with only trusted proxies to its right |
| OidcClientKey.ClientIsFound | src/recertia/api/console_auth.py:515-542 | behind trusted proxies the key is that of the client's own hop, unless the header looks rewritten in what is left without the proxy's own trailing hops |
| OidcClientKey.DirectClientHasOwnKey | src/recertia/api/console_auth.py:543-562 | a client that is no trusted proxy has its own key whatever its header says, unless the header shows the client itself |
| OidcClientKey.NoHeaderGivesPeer | src/recertia/api/console_auth.py:543-575 | without a header every address has its own key |
| OidcClientKey.SameKeyIff | src/recertia/api/console_auth.py:478-483 | two addresses share a key iff they are the same IPv4 address or in one IPv6 /64 |
| OidcClientKey.FixedKeysFirst | src/recertia/api/console_auth.py:525-532 | no peer, an unreadable peer, and a header over the limits give the fixed keys before any hop is looked at |
| OidcClientKey.SelfHopsChangeNothing | src/recertia/api/console_auth.py:503-507 | a trusted proxy on a real port may add its own address any number of times and the key stays |
| OidcClientKey.SelfHopsAreDroppedIff | src/recertia/api/console_auth.py:503-514 | with the peer's address at the end the key is not the fail-closed one iff the peer is trusted, on a real port, and what is left is not empty and does not show the peer |
| OidcClientKey.FrontCannotPickTheKey | src/recertia/api/console_auth.py:515-521 | hops a client puts in front change its key at most to the shared fail-closed one |
| OidcPending.PendingLogins.BeginOidc | src/recertia/api/console_auth.py:367-393 | a start gives the map the eviction function says, and keeps both limits |
| OidcPending.PendingLogins.TakeOidc | src/recertia/api/console_auth.py:412-415 | a take gives the unexpired entry of its state and removes it |
| OidcPending.PendingLogins.PurgeExpired | src/recertia/api/console_auth.py:417-421 | exactly the expired entries go |
| OidcPending.StartedKeepsLimits | src/recertia/api/console_auth.py:38-46 | at most 1024 starts are pending and at most 16 of one client |
| OidcPending.PurgedIff | src/recertia/api/console_auth.py:417-421 | a purge takes exactly the entries older than ten minutes |
| OidcPending.StartSparesOthers | src/recertia/api/console_auth.py:40-44 | a start drops at most its own client's oldest entry or the oldest of another client, the latter never when its own client is at its limit; the rest stays in order and the new start comes last |
| OidcPending.FloodSparesOthers | src/recertia/api/console_auth.py:44-46 | any number of starts by one client cost the others at most 16 minus what it had, oldest first |
| OidcPending.FullClientTakesNothing | src/recertia/api/console_auth.py:40-43 | a client at its limit takes nothing from the others |
| OidcPending.StartedCanBeTaken | src/recertia/api/console_auth.py:384-415 | a start is found by the next take of its state within its ten minutes, and not after |
| OidcPending.TakenOnce | src/recertia/api/console_auth.py:412-415 | a state is good for one take |
| AuditedState.CountsAccepted | contracts/audited_task_state.py:149-155 | for any offered deltas version and rounds advance by the number accepted, within the cap; criteria hash, isolation and cap never change |
| AuditedState.AcceptedIsAChain | contracts/audited_task_state.py:221-238 | the accepted deltas are one chain of versions, all with the state's criteria hash and isolation policy |
| AuditedState.AcceptedIffNext | contracts/audited_task_state.py:211-242 | after any offers a delta is accepted iff it is next in the chain, nothing drifted and a round is left |
| AuditedState.RejectionMeans | contracts/audited_task_state.py:211-242 | which of the five rejections a delta gets, in the source's order |
| AuditedState.AcceptedOnce | contracts/audited_task_state.py:198-205 | no delta is accepted twice |
| AuditedState.HistoriesGrow | contracts/audited_task_state.py:248-260 | the histories hold what they held followed by what the accepted deltas added |
| AuditedState.LastAcceptedWins | contracts/audited_task_state.py:256-264 | commit and phase are the last ones an accepted delta named, budget, report and date those of the last accepted delta |
| AuditedState.ReplayRebuilds | contracts/audited_task_state.py:108-110 | replaying just the accepted deltas rebuilds the state |
| AuditedState.RepeatIsRejected | contracts/audited_task_state.py:221-225 | an accepted delta offered again at any later point changes nothing |
| AuditedState.BlockersStand | contracts/audited_task_state.py:244-246 | a blocker stands after any offers iff the state began with it or an accepted delta set it, and no later accepted delta cleared its id |
| JobQuota.AdmitsIffItFits | contracts/policy.py:133-172 | whatever was spent, a job is admitted iff charging it leaves each pot and slot it draws on within its cap and something was left of each |
| JobQuota.DrawsOnComputerUseIff | contracts/policy.py:126-172 | which pots a job draws on: only practice jobs of the three computer-use classes draw on that share |
| QuotaSessions.SaveThenMerge | src/recertia/policy_load.py:79-125 | save then merge restores the spend exactly in the same week and gives zero in another |
| QuotaSessions.OpensUnlessDamaged | src/recertia/policy_load.py:79-108 | a session opens unless the file is unreadable or this week's record is garbled; no file or another week's counts as nothing spent, absent amounts as zero |
| QuotaSessions.DamageStopsWork | src/recertia/policy_load.py:65-66 | a damaged record of the week is never taken for zero spend: no session gets a quota from it, and without a quota from before the week nothing runs and the record stays |
| JobQuota.AdmittedKeepsCaps | contracts/policy.py:133-172 | an admitted job keeps a spend that is within every cap there |
| QuotaSessions.SessionsAddUp | src/recertia/policy_load.py:79-125 | for any number of sessions, also ones open since earlier weeks, as long as no job runs at a desk that is behind the file records the jobs that ran, in each pot and class |
| QuotaSessions.SpendIsAccounted | src/recertia/policy_load.py:79-125 | on every run, in the file and at every desk, what is shown and what is missed are what ran and what was carried in from before the week |
| QuotaSessions.RecordedIffNotOvertaken | src/recertia/policy_load.py:110-125 | on every run the file records what ran iff what it misses equals what it carries; when every job ran on a quota of the week, iff nobody was overtaken, and else it falls short |
| QuotaSessions.ScheduleAddsUpIff | src/recertia/policy_load.py:110-125 | a schedule adds up for all policies, jobs and quotas from earlier weeks iff every work comes after its desk opened in this week and nobody else worked in between |
| QuotaSessions.EachJobFits | contracts/policy.py:133-172 | each job that runs leaves the week within its own session's caps, in each pot it draws on |
| QuotaSessions.WeekStaysWithinCaps | contracts/policy.py:98-155 | under one policy all jobs of a week stay within the total, hex, computer-use and per-class limits, on every run in which no job runs at a desk that is behind |
| QuotaLedger.ReserveKeeps | src/recertia/jobs/quota_repo.py:149-215 | a reserve keeps every column equal to the sum of its reservations, and leaves its week within the caps of its own policy |
| QuotaLedger.ReserveIsCharge | src/recertia/jobs/quota_repo.py:149-215 | a reserve puts on its week exactly what the quota's own charge would, on each pot and for each class but the empty one, and nothing on other weeks |
| QuotaLedger.SettleSpendsTheCharge | src/recertia/jobs/quota_repo.py:378-426 | a settle moves exactly that from held to spent, so the week shows the same |
| QuotaLedger.FinishKeeps | src/recertia/jobs/quota_repo.py:277-444 | settle and release keep them too, so the clamps at zero never bite |
| QuotaLedger.ImportKeeps | src/recertia/jobs/quota_repo.py:72-127 | so does a week that begins with a sidecar's spend or with a quota in memory |
| QuotaLedger.NoInterleavingOverspends | src/recertia/jobs/quota_repo.py:326-376 | in every interleaving of imports, reserves under any policies, settles and releases a week's spend is what it began with plus what was settled, what is held is what is open, and together they are within each cap of the policy that last reserved in it |
| QuotaLedger.LargestCapHolds | src/recertia/jobs/quota_repo.py:326-376 | for any mix of policies no week passes the largest of their caps, or what it began with |
| QuotaLedger.OverCapTakesNothing | src/recertia/jobs/quota_repo.py:326-376 | a week that begins over a cap of a policy takes no reservation under it |
| QuotaLedger.FinishedOnce | src/recertia/jobs/quota_repo.py:217-225 | a second settle or release does nothing |
| QuotaLedger.ReleaseUndoesReserve | src/recertia/jobs/quota_repo.py:378-444 | a release gives back exactly what the reserve took |
| QuotaLedger.AdmittedCanReserveIff | src/recertia/jobs/__init__.py:155-185 | a job admitted on a snapshot can be reserved on that ledger iff the week is within every cap, also those it does not draw on |
| QuotaLedger.NewWeekIff | src/recertia/jobs/__init__.py:143-203 | in a week without a row, for everything it tries and others do before, between and during its jobs, a runner runs the jobs of a runner with nothing spent iff each pot of its hand is unspent or without room and each class slot is free |
| QuotaLedger.HandShowsTheWeek | src/recertia/jobs/quota_repo.py:129-147 | after a job the hand is what the week's row has spent and holds |
| QuotaLedger.SettledStartsStale | src/recertia/jobs/__init__.py:190-203 | after a job whose own settle counted a runner never starts the next week like a new one |
| QuotaLedger.FullHandIsStuck | src/recertia/jobs/__init__.py:155-170 | with the whole cap in hand, and left to itself, it runs nothing in the new week |
| Counters.DiversityCounts | contracts/stats.py:108-123 | the counter is the number of distinct non-empty sessions cut off at the floor, and the sample stays within its bounds |
| Counters.TrackCounts | contracts/cluster.py:49-60 | a capped counter is exact up to the cap and never undercounts after it |
| Counters.RowTracks | contracts/cluster.py:39-72 | a row keeps the two counters independently, and `eligible` compares them with the minimums; the last case is the last one given |
| Counters.EligibleIsRightIff | contracts/cluster.py:17-21 | `eligible` is right for every history iff both minimums are at most the cap plus one |
| Ratchet.ReadBaseline | scripts/mypy_ratchet.py:93-104 | the loop reads what the line-by-line function reads, or raises on a malformed line |
| Ratchet.SkippedIff | scripts/mypy_ratchet.py:99-101 | a line is skipped iff it is blank or its first character that is not space is `#` |
| Ratchet.CountsAreNumerals | scripts/mypy_ratchet.py:102-103 | a count that is a plain numeral is read by value |
| Ratchet.LineReadsBack | scripts/mypy_ratchet.py:154 | a printed line reads back as its fingerprint and count |
| Ratchet.SplitUndoesJoin | scripts/mypy_ratchet.py:155-156 | splitting joined lines gives the lines |
| Ratchet.ReturnsSplitAlike | scripts/mypy_ratchet.py:98 | a file with return and newline at each line end has the same lines |
| Ratchet.RenderReadsBackIff | scripts/mypy_ratchet.py:93-156 | a rendered baseline reads back as exactly its positive counts iff each of their fingerprints is printable |
| Ratchet.FilesHoldPrintable | scripts/mypy_ratchet.py:93-104 | no file, however made, reads as a fingerprint that is not printable |
| Ratchet.CompareCounts | scripts/mypy_ratchet.py:174-201 | the report, which is empty iff the counts agree at every fingerprint |
| Ratchet.ReportHolds | scripts/mypy_ratchet.py:193-201 | a report holds, with both counts, exactly the fingerprints that rose and those that fell, the stale line iff one fell, and the hint iff both happened: a fix cannot hide a new error |
| Ratchet.WriteThenCheckPassesIff | scripts/mypy_ratchet.py:281-289 | after writing, the check passes iff every fingerprint written is printable |

## Left out

- RunListing.ListRunPage: the cursor's base64 and JSON codec, laziness (how many queries run) and stores that change during one page are not modelled; streams are read whole.
- RunListing.WalkListsEverything: for data that does not change during the walk; for data that do, see `RunListing.WalkSurvivesChanges`.
- RunListing.WalkSurvivesChanges: that a walk over ever-growing data ends is not claimed.
- StampText.IsoTextOrder: calendar arithmetic; a moment is its calendar fields.
- EventFollow.EventFollower.Drain: the `more` loop on a log held still; the whole loop, on any log and clock, is `FollowLoop.IterFollow`.
- EventFollow.ReadersAgree: logs with carriage returns, which a JSON encoder never writes and the two readers split differently.
- FollowLoop.IterFollow: the sleeps, which only decide when the next look happens.
- EventLog.RunEventLog.Append: encoders whose text holds a newline; the JSON encoder's does not.
- KeyedBind.StepKeeps: goal materialisation, stress checks and run verification are one accept-or-reject choice per bind; the freeze, verify and attach routes are other saves, each an unknown function of the version it read. A release that itself fails is a crash.
- KeyedBind.AnswersAgreeUntilExpiry: nothing is promised past the expiry, because an expired key is free again.
- Fencing.FencesIff: times are whole seconds, and a row's time to live is one for all rows.
- StepRefresh.RefreshSettles: warnings and preview hashes, which a refresh does not read.
- RunGraph.ExactlyOneRoute: the `duplicate` verdict has no outgoing route, so it counts as a result not set.
- RunGraph.WalksAreShort: what the nodes compute; a node may change the state in any way that charges attempts only at `solve`.
- Intervals.WilsonIsTheScoreInterval: floating-point rounding; for samples with more successes than trials only `RootFailsIff` is said.
- OidcPending.FloodSparesOthers: random states are taken to be fresh; a repeated state would replace the entry that has it.
- OidcClientKey.NoMintedKeys: parsing of addresses and networks, and the one-time warnings.
- AuditedState.CountsAccepted: contents of decisions, artifacts and budgets are carried, not interpreted.
- QuotaSessions.WeekStaysWithinCaps: one policy for the week; with several, `EachJobFits` is about each session's own.
- QuotaLedger.NoInterleavingOverspends: expiry of a reservation is a release chosen by the clock.
- QuotaLedger.NewWeekIff: jobs outside the priority list and the enablement check, which skip the quota, are not modelled.
- QuotaSessions.SessionsAddUp: the file of the week's start is from before the week, or missing; it is readable.
- Ratchet.RenderReadsBackIff: the wording of the header comments and CRLF translation are left open.
- HTTP routes, settings, templates, telemetry, authorisation, hashing, tokens and the OIDC exchange: plumbing and foreign cryptography.
- `producers_of` in the route table: a lookup table.
