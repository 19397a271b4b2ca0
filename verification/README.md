# Laddy orchestrator: a verified model

Laddy drives coding agents through an event-sourced development loop and lands their branches through a trusted merge
authority. This project models the parts whose correctness comes from the order of things, and proves what they promise:

| files | what they model |
|---|---|
| `terminals.dfy`, `loop_log.dfy`, `loop_runs.dfy`, `loop_tail.dfy` | the loop as a replay of its log: derivation, resume grant, senior overrides, the phase loop, the terminal tail under crashes |
| `locks.dfy` | the per-task lock at system-call grain, with crashes and pid reuse |
| `queue_pass.dfy` | the queue and the runner with deferral and chain blocking |
| `tripwire.dfy` | the hub tripwire over a commit graph, with an adversary |
| `glob.dfy`, `policy.dfy`, `gates.dfy`, `decision.dfy` | the glob language, path classification, risk, the gate replay, the decision matrix, the report-only lane |
| `merge_check.dfy`, `merge_engine.dfy`, `merge_batch.dfy` | the recomputations on the trusted machine, the gates and the decision there, and what a batch may do to main |
| `text.dfy`, `jsonl.dfy`, `flags.dfy`, `spec.dfy`, `verdict.dfy`, `rendering.dfy` | lines and stripping, the log file, the flag fold, front matter and the forced draft, the last-object walk, rendering of untrusted text |
| `quota.dfy` | quota waits against a shared budget |

Code that changes state step by step is a class or a method with a loop, proved against a function of its inputs or of the old
state; the lemmas are about those functions and about runs. Agents, tests, the container, git's merge, the commit graph, the
clock and the person asked to confirm are inputs or oracles, universally quantified.

`dafny verify dfyconfig.toml` checks the project with Dafny 4.11.

## What the proofs found

Where the code does not do what a reader of its documentation would expect, the code was kept and the condition proved under
which it does.

- A tripwire alarm does not stay until the hub changes: merging the diverged tip into local main silences it. `AlarmPersists`
  proves that this is the only way out; `MergingTheTipClearsTheAlarm` shows that it is real.
- A chained item is promised to run only after its predecessor succeeded in the same pass (`orchestrator/run.py:943-948`). That
  holds exactly when every link of the chain points backwards in the queue and the ancestor itself stands before the last of them
  (`ChainHoldsExactly`; for one link, exactly when the predecessor is queued before its item, `PredecessorGuardsExactly`). A
  predecessor that is queued later, or not at all, does not hold its item back (`AbsentPredecessorRuns`, `OutOfOrderChainRuns`):
  a failed predecessor leaves the queue, so this is the state after its failure.
- The log writer prints U+0085, U+2028 and U+2029 raw and the reader splits lines there. An append to a readable file of whole lines
  reads back exactly when the event prints on one line (`AppendReadsBackExactly`), and a file of whole appends exactly when all its
  events do (`WholeAppendsReadBack`); an event with such a character makes the log unreadable (`LineSeparatorCorrupts`).
- An append after a torn tail glues onto it. The event is read, with nothing lost, exactly when the tail and its print, glued, read on
  their own as what the tail held and the event; for an event on one line, exactly when the tail reads as no event and the glued line
  decodes to the new one. If that line does not decode, the new event and any whole event the tail held are silently missing, and
  one more append makes the log unreadable (`AppendAfterTornTail`).
- A kill between the `push ok` entry and the `terminal` entry re-reads as the pushed state, not as the merge decision.
- A resume does not always reopen development: a gate that was still due runs first (`ResumeReopens`).
- A senior's approval stands in only for a gate that is shut. A gate that is open at an older sha stays stale
  (`SeniorStandsInExactly`), and a senior that does not approve changes no gate (`SeniorRefusalChangesNothing`).
- The off-server check passes exactly under the conditions of `PassExactly`; a reviewer-declared high risk fails it only when the
  diff touches no sensitive or security path.
- Forcing a spec to a draft is documented to keep its type and roles (`orchestrator/loop.py:386-390`). Over every text that parses,
  it does exactly in the cases of `ForceDraftKeepsExactly`. It does not for a fence with blanks before it, where every declaration is
  lost (`IndentedFenceLosesType`); for a first line such as `---x`, which the parser takes for prose and the rewrite for the fence, so
  that the lines below become front matter: `---x`, `type: audit`, `---` turns a feature into a report-only task
  (`PseudoFenceTakesType`); and for a header with `status : done`, which becomes a text that does not parse
  (`ForceDraftKeepsTheRest`).

## Model

| member | source | states |
|---|---|---|
| Terminals.TablesSay | orchestrator/terminals.py:37-96 | which states are a success, are retryable, are never pushed, need a handback and are cleared by a resume |
| LoopLog.RecordedTerminal | orchestrator/loop.py:81-122 | returns exactly the state that is recorded - the newest terminal or push mark, sticky and cleared by no later resume - and nothing when none is; at most one is |
| LoopLog.RecordedAfter | orchestrator/loop.py:81-122 | one more entry: a retryable terminal always re-enters, a push mark re-reads as pushed, a clearing resume re-arms, anything else changes nothing |
| LoopLog.DeriveResumePoint | orchestrator/loop.py:228-293 | for every composition and cap the phase is the one the newest phase entry calls for: the next configured gate after a green one, push only past the last configured gate, done or deadlock on those entries alone, and otherwise the developer or the cap, by the rounds used; round and sessions are those on the entries |
| LoopLog.DevRoundsSinceResume | orchestrator/loop.py:170-185 | counts the developer entries after the newest director resume |
| LoopLog.ResumeDeveloperPoint | orchestrator/loop.py:188-225 | grants a developer round exactly when a resume is on record, fewer than three developer entries follow the newest one, no gate, review or push is due and no convergence has been reached since |
| LoopLog.NonconvergenceDetected | orchestrator/loop.py:303-332 | sees two equal fingerprints of one gate in a row, or two no-gos, on the entries since the last senior verdict and on nothing before it |
| LoopLog.SeniorRearms | orchestrator/loop.py:303-332 | a senior verdict and whatever single entry follows it are never yet a stall |
| LoopLog.OverridePhase | orchestrator/loop.py:787-805 | one turn's phase: the stall backstop, then the senior trigger on a sensitive change, at most one senior |
| LoopRuns.EveryLogIsBounded | orchestrator/loop.py:188-293 | over every run with resumes, adoptions and rebuilt worktrees: developer rounds stay within the cap plus three per resume, one senior at most, and all phase entries within six per round plus two |
| LoopRuns.PushIsGated | orchestrator/loop.py:254-282 | over every run and every composition a push is reached only over the green entries of the configured gates in order, or a senior approval and then the authoritative gate if there is one, since the last developer entry; with a senior, on a sensitive change only after its entry |
| LoopRuns.ChainSays | orchestrator/loop.py:228-293 | the chain those gates are looked up in is the phase entries after the last developer entry, all of them and in order |
| LoopRuns.PushIsGreen | orchestrator/loop.py:857-930 | when a run stands before a cleared chain, every turn it took since the last developer round, from the senior on if there is one, was answered green by its own gate or reviewer |
| LoopRuns.ResumeReopens | orchestrator/loop.py:188-225 | a director resume leads back to the developer exactly when the replay is not at a gate |
| LoopRuns.MoveKeepsGood | orchestrator/run.py:555-609 | every writer of loop events - a turn, a terminal tail, an adoption, a resume - keeps the bounds and the gate chain in every prefix of the log |
| LoopRuns.Orchestrator.TakeTurn | orchestrator/loop.py:1271-1486 | one turn appends one entry of its phase that says what its reply was: a gate passes exactly if it was green, a reviewer approves exactly on a clean verdict and is malformed or deadlocked exactly without one, with the sha and session it saw; a pass is flaky exactly if that sha failed before |
| LoopRuns.Orchestrator.RunPhases | orchestrator/loop.py:857-930 | the phase loop terminates for every stream of replies inside the step budget, appends only phase entries, each saying what its own reply was, and stops at push only over a cleared chain of which every turn it took itself was answered green |
| LoopTail.FinishIsAccountedFor | orchestrator/loop.py:932-972 | with crashes, refused pushes and re-kickoffs anywhere: a log that records a finish was notified after its last phase entry and, for a pushing state, the announced code and papers are on the hub |
| LoopTail.FinishIsRecordedOverDelivery | orchestrator/loop.py:932-972 | from the first push of the tail to its last, the marker included, the hub holds the very tree of the worktree with the papers of the state |
| LoopTail.Task.Start | orchestrator/loop.py:809-825 | a kickoff after any run returns the one state the log records and then changes nothing, with the notification out and a pushing deliverable on the hub; on a log that records none it enters the phases |
| LoopTail.KickDecides | orchestrator/loop.py:809-825 | in the protocol a kickoff is without effect exactly on a recorded finish, and a retryable terminal always re-enters |
| LoopTail.MoveKeeps | orchestrator/loop.py:911-1006 | every side effect of the tail, of the crash-window resume and of the internal-error cleanup keeps that accounting, a crash after any of them included |
| LoopTail.WholeTail | orchestrator/loop.py:932-972 | an uninterrupted tail leaves the marker, one notification sent over the log it found, and for a pushing state a hub tip that carries the marker |
| LoopTail.CleanupNotifies | orchestrator/loop.py:974-1006 | whichever of its steps fail, the catch-all ends with one notification of the error, pushes nothing and records no finish, so a kickoff goes on with the task |
| LoopTail.Task.Finalize | orchestrator/loop.py:932-972 | killed after any number of side effects, the tail has done exactly that many of its eight steps, in order |
| Locks.MutualExclusion | orchestrator/queue.py:203-256 | over every interleaving with crashes and reused pids at most one live process holds the lock, and the pid file holds its pid |
| Locks.OnlyTheHolderRemoves | orchestrator/queue.py:236-256 | while a process holds the lock, nothing changes the pid file but its own unlink |
| Locks.SoloAcquire | orchestrator/queue.py:203-232 | with the guard free, an acquire run alone gets in exactly when the recorded pid is dead, and leaves everything as it was otherwise |
| Locks.CrashedLockIsRetaken | orchestrator/queue.py:133-149 | without pid reuse, whatever dead holders left behind, a newcomer running alone gets in |
| Locks.MoveKeeps | orchestrator/queue.py:186-256 | every system call, spawn and death keeps the invariant of the protocol |
| QueuePass.TaskQueue.Enqueue | orchestrator/queue.py:56-88 | refuses a queued task, and otherwise adds one item at the end under a number above all others |
| QueuePass.TaskQueue.TakeUp | orchestrator/run.py:962-1036 | one item is deferred, or handed over and kept or removed, and blocked, as the chain, its base and the loop's answer say |
| QueuePass.TaskQueue.PhaseQueue | orchestrator/run.py:939-1036 | the runner terminates and leaves the queue, the hand-overs and the blocked set of one pass from left to right |
| QueuePass.PassConserves | orchestrator/run.py:939-1036 | first in, first out, once each, nothing lost: handed over are the items not stopped, removed are those whose loop returned a code other than 4, all others stay in order |
| QueuePass.KeptSays | orchestrator/run.py:1004-1036 | still queued are exactly the items whose loop was not called, raised or answered 4 |
| QueuePass.BlockedIsUnsuccessful | orchestrator/run.py:939-1036 | blocked are exactly the tasks visited that did not succeed |
| QueuePass.HandedExactly | orchestrator/run.py:968-1003 | an item is handed over exactly when it has no predecessor, or its worktree is not stale and no item of the predecessor's name before it failed to succeed |
| QueuePass.ChainStops | orchestrator/run.py:968-1003 | no item is handed over unless its predecessor standing before it in the queue succeeded |
| QueuePass.ChainHoldsExactly | orchestrator/run.py:943-1003 | along any chain of links, to an ancestor queued or not: whatever the tasks do, the first item reaches the loop only after the ancestor succeeded, exactly when every link points backwards in the queue and the ancestor stands before the last of them |
| QueuePass.PredecessorGuardsExactly | orchestrator/run.py:943-1003 | a predecessor at position k guards item i in every pass exactly when k < i |
| QueuePass.AbsentPredecessorRuns | orchestrator/run.py:943-1003 | a predecessor that is nowhere before its item does not guard it: some pass hands the item over without its success |
| QueuePass.ChainStopsTransitively | orchestrator/run.py:968-1003 | up a chain queued in its own order, one failure, deferral or block anywhere keeps every descendant from the loop |
| QueuePass.OutOfOrderChainRuns | orchestrator/run.py:968-1003 | a task queued before its predecessor is handed over although that predecessor is then blocked |
| Tripwire.Repo.CheckHubMain | orchestrator/hub_tripwire.py:77-150 | on a reachable hub: deleted exactly if its main is gone and a tip is on record, fresh exactly if it is gone and none is, diverged exactly if the tip is outside the history of local main, rewound exactly if it is inside and no fast-forward of the record, and OK otherwise; moves the record only on OK and raises only when it cannot be written |
| Tripwire.AncestorExactly | orchestrator/hub_tripwire.py:110-150 | in the history of a commit is what a path of parents leads to |
| Tripwire.TamperingAlarms | orchestrator/hub_tripwire.py:77-150 | over every run, once a tip is on record, a check that reaches the hub alarms whenever its main is gone or is not on top of that tip: deleted, diverged or rewound, by what is there |
| Tripwire.PassedThenTampered | orchestrator/hub_tripwire.py:77-150 | once a check has passed, every later check on a hub whose main is gone or no longer contains the tip it passed alarms |
| Tripwire.RecordOnlyMovesForward | orchestrator/hub_tripwire.py:77-150 | over every run, adversary included, the record stays in local main's history and only moves forward |
| Tripwire.CheckIsStable | orchestrator/hub_tripwire.py:77-150 | OK leaves the record at the hub tip, any other check changes nothing, and the next check says the same |
| Tripwire.AlarmPersists | orchestrator/hub_tripwire.py:77-150 | while the hub stays put an alarm keeps tripping, with exactly one way out: local main merges the diverged tip and that tip is a fast-forward of the record |
| Tripwire.MergingTheTipClearsTheAlarm | orchestrator/hub_tripwire.py:110-150 | that way out is real |
| Tripwire.NoFalseAlarm | orchestrator/hub_tripwire.py:77-150 | without an adversary no check ever raises an alarm |
| Jsonl.ReadJsonl | orchestrator/artifacts.py:100-127 | reads the events in order, tolerates one malformed last line, and fails on any other malformed line |
| Jsonl.LogFile.Append | orchestrator/artifacts.py:72-88 | adds one printed line and changes nothing before it |
| Jsonl.WholeAppendsReadBack | orchestrator/artifacts.py:72-127 | a file of whole appends reads back as its events exactly when each of them prints on one line |
| Jsonl.AppendReadsBackExactly | orchestrator/artifacts.py:72-127 | on a readable file of whole lines whose last is not malformed an append reads back exactly when the event prints on one line |
| Jsonl.BrokenFile | orchestrator/artifacts.py:100-127 | the first event of a file that is not one line ends what can be read: the read fails, or, if that event is the last and ends in a carriage return, all but it is returned |
| Jsonl.CutAppend | orchestrator/artifacts.py:100-127 | cutting the last append at any character leaves all events, or all but the last, exactly when that append is one line or is cut within its first |
| Jsonl.AppendAfterBoundary | orchestrator/artifacts.py:72-127 | what an append at a line boundary makes of a readable file, for every event: the event added, nothing added, or a read that fails |
| Jsonl.AppendAfterTornTail | orchestrator/artifacts.py:72-127 | for every event, exactly when an append after a torn tail is read without loss; for one on one line, exactly when it is silently missing, and that one more append then makes the log unreadable; for one of several lines, what happens when its first line, glued, does not decode |
| Jsonl.ReadsAlone | orchestrator/artifacts.py:100-127 | behind whole readable lines a text reads as it would in a file of its own |
| Jsonl.LineSeparatorCorrupts | orchestrator/artifacts.py:88-112 | wherever it is appended, a whole append of an event with a raw U+0085, U+2028 or U+2029 makes the read fail |
| Flags.DeriveFlags | orchestrator/flags.py:77-120 | the dictionary the code fills lists exactly the fold of the log |
| Flags.NextIdIsFresh | orchestrator/flags.py:168-182 | the next id, made through the decimal suffix and back, is on no raise already in the log |
| Flags.NextIdSays | orchestrator/flags.py:168-182 | the next id is the task's name and one more than the highest number in use, or one |
| Flags.NumeralOfDecimal | orchestrator/flags.py:168-182 | printing a number and reading the digits back is the identity |
| Flags.RaiseAddsOne | orchestrator/flags.py:130-196 | a raise is one open flag at the end of the fold, every other flag untouched, whatever gaps or duplicates were planted |
| Flags.RulesSay | orchestrator/flags.py:33-44 | the kinds that may be raised, the one that needs its own channel, the words that resolve, and what still counts as open |
| Flags.FlagsOnlyClose | orchestrator/flags.py:77-120 | over any extension of the log a flag keeps place, id and content, and once closed never changes |
| Flags.TaskLog.RaiseFlag | orchestrator/flags.py:129-196 | refuses what may not be raised and then changes nothing, and otherwise appends the one raise under a fresh id |
| Flags.TaskLog.ResolveFlag | orchestrator/flags.py:199-246 | closes exactly the one open flag of that id, as told; everything else is refused or a no-op and leaves the log alone |
| Flags.RaisesNeverCollide | orchestrator/artifacts.py:227-252 | over every interleaving of raisers under the log lock, other writers and crashes, ids stay distinct and the fold lists every raise |
| Spec.ParseFrontMatter | orchestrator/spec.py:71-134 | the fail-closed parse: a defeated or malformed fence, an unclosed block, a line without a colon or a repeated key fails; a plain text has no fields |
| Spec.PlainFailsExactly | orchestrator/spec.py:71-117 | a text that does not open with the fence fails exactly if its first line is not ASCII or its first line of content is a rule of dashes or tildes, and has no fields otherwise |
| Spec.BlockParsesExactly | orchestrator/spec.py:118-134 | a block parses exactly when it is closed and, before that, declares every key at most once and nothing malformed; its fields are those declarations and no others |
| Spec.SpecIsKnown | orchestrator/spec.py:141-169 | what parses has one of the five types and is runnable, a draft or done; exactly two types only report |
| Spec.RolesReadBack | orchestrator/spec.py:148-155 | a list of roles in brackets reads back as its roles, in order |
| Spec.RiskFieldSays | orchestrator/spec.py:158-158 | a declared risk is the lowered word without blanks, and a blank one is none |
| Spec.CompositionSays | orchestrator/spec.py:20-26 | code is reviewed by rw1 and, but for a spike, by rw2; a report is investigated and verified |
| Spec.ForceDraftNeverRuns | orchestrator/loop.py:386-404 | for every text the forced draft fails to parse or parses as a draft |
| Spec.UnfencedBecomesFeature | orchestrator/loop.py:386-404 | with no closed block to preserve, the result is the default feature as a draft |
| Spec.ForceDraftKeepsTheRest | orchestrator/loop.py:386-404 | a fenced spec that parses comes back as itself with the draft status, unless its header declares the status in a line the rewrite does not recognise, and then it does not parse |
| Spec.DroppedDeclaresStatus | orchestrator/loop.py:401-401 | a line the rewrite drops declared some spelling of the status and no other key |
| Spec.ForceDraftKeepsExactly | orchestrator/loop.py:386-404 | over every text that parses, the forced draft is the same spec as a draft exactly when: an unindented fence opens it and its header hides no status; or the rewrite finds no block and what is declared is the default; or the lines the rewrite takes for a header, below a first line that is no fence, say nothing but the default |
| Spec.IndentedFenceLosesType | orchestrator/loop.py:392-394 | whatever a text declares behind an indented fence, it comes back as a draft of the default feature |
| Spec.IndentedTypeIsLost | orchestrator/loop.py:392-394 | such texts parse, for every type |
| Spec.PseudoFenceTakesType | orchestrator/loop.py:392-404 | a plain text whose first line merely begins with the fence comes back as a draft of whatever type its lines name |
| Verdict.LastJsonObject | orchestrator/verdict.py:69-104 | the loop returns the last slice of the one greedy chain of decodable objects, for any decoder that advances |
| Verdict.WalkIsGreedy | orchestrator/verdict.py:69-104 | the chain is pairwise disjoint and greedy from left to right |
| Verdict.GreedyIsUnique | orchestrator/verdict.py:69-104 | a text has only one such chain |
| Verdict.FailsExactly | orchestrator/verdict.py:69-104 | the walk fails exactly when no brace opens an object that decodes |
| Verdict.LastIsOutermostAndFinal | orchestrator/verdict.py:69-104 | the answer lies inside no other slice, and nothing decodable starts at or after its end |
| Verdict.AnswerIsExactly | orchestrator/verdict.py:69-104 | an object no earlier one reaches into is the answer exactly when nothing decodable follows it |
| Quota.WaitIsPositive | orchestrator/quota.py:41-48 | a planned wait is never shorter than the least configured one |
| Quota.PlanSays | orchestrator/quota.py:41-48 | the wait ends a buffer after a reset that is still to come, and is otherwise the backoff of the attempt, the last one from there on |
| Quota.WaitsAreBounded | orchestrator/quota.py:98-112 | an episode's waits number at most the remaining budget divided by the least wait |
| Quota.Run | orchestrator/quota.py:98-112 | terminates; sleeps what it charges; announces attempts 0, 1, ... once each; reports a resume exactly when it waited and was answered |
| Quota.RunAll | orchestrator/quota.py:51-67 | over all runners of one budget the time slept is the time spent and never exceeds the limit |
| Glob.LiteralTail | orchestrator/policy.py:48-49 | a tail without wildcards is matched literally, whatever stars, classes or unclosed brackets stand before it |
| Glob.StarExactly | orchestrator/policy.py:48-49 | a star matches any text, separators included |
| Glob.RangeExactly | orchestrator/policy.py:48-49 | a range matches one character between its ends, a negated one any other single character |
| Glob.UnclosedExactly | orchestrator/policy.py:48-49 | a bracket nothing closes stands for itself |
| Glob.InertGlobsMatchInertPaths | orchestrator/target_policy.py:340-363 | a glob the policy loader accepts matches only paths that end in an allowed extension |
| Glob.TrailingStarAdmitsCode | orchestrator/target_policy.py:340-363 | why the loader refuses a trailing star: it matches every path below |
| Policy.L1IsInert | orchestrator/policy.py:262-306 | a diff in the lane without review is not empty, and each of its files has an inert extension, lies outside the spec directory and matches no sensitive or security glob |
| Policy.ClassifyExactly | orchestrator/policy.py:262-306 | the three lanes on the paths and globs: L3 exactly for an empty diff or one that touches a guarded path, L1 exactly if every file of any other is markdown or declared safe and outside the spec directory, L2 exactly if one is not |
| Policy.RiskSays | orchestrator/policy.py:185-224 | a declaration counts as low or medium exactly if it says so up to case and blanks, or says nothing, and as high otherwise; the computed risk is high exactly on a guarded path and medium exactly above fifteen files or three hundred lines without one |
| Policy.DeclaredRisk | orchestrator/loop.py:366-383 | the loop over the verdicts yields the highest level they declare |
| Policy.HighestIsAMaximum | orchestrator/loop.py:366-383 | no declared level is laundered away, and a risk above low was declared by someone |
| Gates.GateStatesFromLog | orchestrator/loop.py:424-467 | the loop over the entries yields each reviewer's gate and the last authoritative run, with waivers only where configured |
| Gates.GateIsItsOpener | orchestrator/loop.py:436-449 | a reviewer's gate is open exactly when some entry opened it - its last word and an approval, or the first approving senior after a refusal - and then at that entry's sha |
| Gates.TestGateIsItsLastRun | orchestrator/loop.py:450-453 | the authoritative gate is the newest authoritative entry, and shut without one |
| Gates.SeniorStandsInExactly | orchestrator/loop.py:444-449 | a senior approval opens a gate at its sha exactly if the gate was shut, or open there already |
| Gates.SeniorRefusalChangesNothing | orchestrator/loop.py:444-449 | a senior that does not approve changes no gate |
| Gates.WaiversSay | orchestrator/loop.py:454-467 | a gate that is not required is open at the head whatever the log holds, a required one is what the log made it |
| Decision.DestructiveMigrations | orchestrator/policy.py:326-340 | selects, in order, the migrations that can be read and drop a table or a column |
| Decision.DecideMerge | orchestrator/policy.py:371-421 | every reason that applies to the gates, paths, statuses and texts and no other; a stop exactly on any reason, a notification exactly for a user-visible change of medium risk without one, a merge otherwise; the first five deleted tests in order |
| Decision.DeletedSays | orchestrator/policy.py:309-323 | a deleted test is a path under tests/ or a declared test directory with a status that begins with D; the first five of them in order are listed |
| Decision.DroppedSays | orchestrator/policy.py:326-340 | a destructive migration is a readable file on a migration glob in whose text drop_table or drop_column occurs |
| Decision.MergeIsEarned | orchestrator/policy.py:386-421 | on replayed gates it merges exactly when the log earned rw1, rw2 and a steady authoritative pass at the head, no path, deletion, migration, deadlock or unclear intent objects, and no high risk is declared; the risk is then not high |
| Decision.RefusalStops | orchestrator/policy.py:386-421 | one more gate entry that does not approve turns any decision into a stop |
| Decision.MovedCodeStops | orchestrator/policy.py:390-396 | moving the code away from the sha a merge was earned at turns it into a stop, whichever gates are configured |
| Decision.NondraftReportSpecs | orchestrator/policy.py:89-134 | selects, in order, the changed specs that may not land through the report-only lane |
| Decision.ReportOnlySays | orchestrator/policy.py:424-443 | each reason against a report-only task stands exactly if there is a file outside its lane, a spec that leaves something to run, or no verification |
| Decision.ReportOnlyMergesExactly | orchestrator/policy.py:424-443 | a report-only task merges exactly when it was verified, every file is its own artifact or a markdown spec, and every such spec is a draft or is its own and stays one that runs no code |
| Decision.ForcedDraftMayLand | orchestrator/policy.py:89-134 | a fix spec forced to a draft never holds up its task, as long as it parses |
| MergeCheck.Check | orchestrator/merge_check.py:116-227 | the early returns in order, then the comparison and the leaking reasons |
| MergeCheck.NamesSay | orchestrator/policy.py:355-368 | the three names on record tell the decisions apart |
| MergeCheck.PassExactly | orchestrator/merge_check.py:116-227 | exits 0 exactly when: for a report-only task, a merge is committed and the report may land; for any other, the artifacts are honest about the code, the history earned every gate at it, nothing was dropped, no one is deadlocked, and a declared high risk comes with a sensitive or security path |
| MergeCheck.PassingStopIsSensitive | orchestrator/merge_check.py:94-113 | a stop that exits 0 touches a sensitive or security path and classifies as L3 |
| MergeCheck.ReasonsLeak | orchestrator/merge_check.py:94-113 | which reasons of a decision leak: every gate reason, every loss, and a high risk without a path reason |
| MergeCheck.CheckLocalFix | orchestrator/merge_check_local.py:70-134 | the reasons still standing on a fix tree, in order; an unreadable spec is not report-only |
| MergeCheck.LocalFixWaivesOnlyGates | orchestrator/merge_check_local.py:70-134 | passes exactly when only stale or flaky gates would leak from the full decision on the same tree, under whatever gates, and no reviewer declared a high risk; for a report-only task, exactly when the report may land |
| MergeCheck.LocalFixPassesExactly | orchestrator/merge_check_local.py:70-134 | passes exactly when nothing was deleted or dropped, no one is deadlocked and no reviewer declared a high risk, or the report may land |
| MergeEngine.ParseBindingOutput | orchestrator/testgate.py:452-544 | a red run is blamed on the suite, the coverage or a scanner exactly if its last code is not 0 or missing - a missing frontend alone counts as not run - and on everything if the report is missing or claims all is well |
| MergeEngine.GreenIsExitZero | orchestrator/testgate.py:452-544 | whatever the container printed, all is green exactly when it exited with 0 |
| MergeEngine.RunSecurityPanel | orchestrator/local_merge.py:438-453 | collects every member's blockers, one for each member without a valid verdict |
| MergeEngine.PanelIsClearExactly | orchestrator/local_merge.py:438-453 | the panel is silent exactly when every member answered without a blocker |
| MergeEngine.Decide | orchestrator/local_merge.py:324-405 | the reasons are exactly the red deterministic gates and, unless waived, the reviewers who block, or the sensitive surface alone where nothing objects |
| MergeEngine.MayLandExactly | orchestrator/local_merge.py:324-405 | not broken exactly when every deterministic gate is green and no reviewer objects or objections are waived; the waived ones are all on the verdict; unasked merge or risk decision is decided by the blast radius alone |
| MergeBatch.LocalMergeEngine.GatherGates | orchestrator/local_merge.py:1090-1230 | every gate against the current main and its policy: attestation, classification, the trial merge's container run, panel for L2 and L3, rw2 for L2; reported as restored is exactly what the diff holds of the infrastructure paths and below them |
| MergeBatch.RestoredExactly | orchestrator/testgate.py:247-265 | a file counts as gate infrastructure exactly if it is one of the paths or continues one behind a slash |
| MergeBatch.NeighbourIsNotWithin | orchestrator/testgate.py:258-265 | a path that continues a directory name with anything but a slash is no part of it |
| MergeBatch.LocalMergeEngine.MergeBranch | orchestrator/local_merge.py:1250-1354 | code and advisory record land in one commit or main is what it was; no merge is left prepared |
| MergeBatch.LocalMergeEngine.JudgeOne | orchestrator/local_merge.py:606-695 | a branch whose verdict reads merged adds exactly one tree, which met every condition of a landing on this main; any other leaves main as it was, and its verdict says why |
| MergeBatch.HeldSays | orchestrator/local_merge.py:606-695 | why a branch is held, exactly: unconfirmed at L3, declined below it, a dry run, no longer applying, not prepared, or a failure on the way |
| MergeBatch.LocalMergeEngine.Run | orchestrator/local_merge.py:573-604 | judges every branch against the main of its turn; a failure of one never stops the others |
| MergeBatch.LandsExactly | orchestrator/local_merge.py:606-695 | a tree lands exactly when: no dry run, confirmed, attested, no file of the diff is or lies below a gate infrastructure path, objections absent or waived and recorded, and the tree is the trial merge of the verified sha into this very main, whose container run exited 0 |
| MergeBatch.ReportTellsTheTruth | orchestrator/local_merge.py:606-695 | a verdict reads as merged exactly when a tree landed |
| MergeBatch.MainStaysGreen | orchestrator/local_merge.py:573-604 | over a whole batch main only grows, by exactly one commit per merged verdict, in turn, each landed under all those conditions on its predecessor |
| MergeBatch.LandedWasEarned | orchestrator/local_merge.py:1125-1132 | what lands from the server was earned there: its log opened both reviewers' gates and ended in a steady authoritative pass at the branch's own code, with no deleted test, dropped data or deadlock - or it is a report that may land |
| MergeBatch.LocalLandingWasCleared | orchestrator/local_merge.py:1133-1154 | what lands as a local fix has no deleted test, no dropped data, no deadlock and no declared high risk, or is a report that may land |
| MergeBatch.StopNeverAutoMerges | orchestrator/local_merge.py:381-405 | a branch whose own honest decision is stop is L3 and never merged unasked, in either mode |
| MergeBatch.UnreviewedIsInert | orchestrator/local_merge.py:1190-1215 | without the waiver, a branch that lands against an objecting or silent panel member consists of inert files only |
| MergeBatch.LandsReviewed | orchestrator/local_merge.py:1190-1215 | without the waiver, what lands at L2 or L3 was cleared by every panel member, and at L2 by the second reviewer |
| MergeBatch.FindingsExactly | orchestrator/local_merge.py:1190-1215 | the reviewers object exactly if a panel member does at L2 or L3, or the second reviewer at L2 |
| Rendering.UntrustedInline | orchestrator/human_text.py:11-63 | refuses a limit below the marker, and otherwise renders the scanned tokens within the limit |
| Rendering.TokenNames | orchestrator/human_text.py:30-45 | a token is the character itself, one of two short escapes, or an escape that names the code point in as many of two, four or eight hex digits as it takes |
| Rendering.InlineIsClean | orchestrator/human_text.py:11-63 | for every text the line is within the limit, holds no control, format or line-break character and no double or outer space, and is all the tokens or a prefix of whole tokens and the marker |
| Rendering.InlineIsIdempotent | orchestrator/human_text.py:11-63 | rendering again, at the same limit or a wider one, changes nothing |
| Rendering.LongestBacktickRun | orchestrator/handoff.py:35-40 | the running count yields the longest run |
| Rendering.LongestIsLongest | orchestrator/handoff.py:35-40 | a run of that length is in the text and none longer is |
| Rendering.FencedUntrusted | orchestrator/handoff.py:43-55 | the fence, one rendered line per line of the text, and the fence |
| Rendering.FenceHolds | orchestrator/handoff.py:43-55 | no body line holds a backtick run as long as the fence, so none closes it under section 4.5 of CommonMark 0.31.2, and each is one physical line within its limit |
| Rendering.FenceIsNoLonger | orchestrator/handoff.py:51-55 | the fence is three backticks, or one more than a run the body holds |

## Left out

- Flags.NumeralOfDecimal: ASCII digits only; the suffix test of the source also accepts other digit characters, on which its
  conversion raises.
- Spec.ParseFrontMatter: lower-casing is ASCII, which is exact for the words it is compared with.
- Policy.L1IsInert: the engine's own list of sensitive globs and the host's case folding are parameters; folding is assumed to
  leave the two engine-safe globs as they are.
- Policy.DeclaredRisk: the verdict files are given as declared levels; reading and parsing them is not modelled.
- Rendering.InlineIsClean: Unicode categories are a parameter, assumed to exclude printable ASCII; lone surrogates do not exist
  in the model's characters.
- Verdict.LastJsonObject: the JSON decoder is an oracle that advances; its recursion limit is not modelled.
- Jsonl.WholeAppendsReadBack: the JSON codec is an oracle; of each event in question it is assumed to read back what it prints, to
  print no white space first, and to read no proper prefix of a print.
- Decision.DecideMerge: reasons are typed values with their paths, not their rendered text.
- MergeBatch.LocalMergeEngine.GatherGates: fetching, worktrees and prompts are one failure point; the changed files of a branch
  are given and the frontend command is part of the container run.
- MergeBatch.LocalMergeEngine.MergeBranch: the abort of a prepared merge is taken to restore the old commit, and a failing
  `on_verdict` callback, which ends the batch, is not modelled.
- LoopRuns.EveryLogIsBounded: the hub's copy of a log, which a resume or a rebuilt worktree falls back to, is taken to be a prefix
  of the local one.
- Locks.MutualExclusion: symbolic-link refusal and unreadable lock files are operating-system behaviour.
- QueuePass.TaskQueue.PhaseQueue: the queue's own file lock and files added by other processes during the pass are not modelled.
- LoopTail.FinishIsAccountedFor: notifications are recorded when sent; delivery by the service is outside.
- LoopTail.FinishIsRecordedOverDelivery: a tail resumed after a kill between the `push ok` entry and the marker is not covered, as the
  Director may have committed to the hub, and the worktree been rebuilt from it, in between.
- The report-only flow, explorer, clarify and design gates: once-only steps with little state.
- Parsing the policy file, argument and environment parsing, configuration checks: only the facts relied on are kept.
- Prompts, digests and summary text; ledger and series folds; monitoring and the note server.
- Subprocess, git plumbing, Docker and HTTP.
- `spec_is_high_risk` and the path tokens of free text: a heuristic over the same matcher.
