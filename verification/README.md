# Verification of the vault git-sync extension

A Dafny model of the extension's git worker, its frontmatter stamper, its startup lock sweep and its
lifecycle, with proofs about every run of them. `dafny verify dfyconfig.toml` checks it all.

## How it is laid out

| module | what it holds |
|---|---|
| `Trees`, `Rebasing` | directory snapshots, linear histories, and `git rebase -X theirs` on them |
| `Repository` | a clone and its remote; what git accepts, what each command does, what it may leave when it fails or is killed |
| `Machine` | the worker as functions of its state and of an `Oracle`: the specification |
| `GitWorkers` | the classes `GitOps` and `GitWorker`, updating their fields in place, each method proved equal to its specification |
| `Safety`, `Cycles`, `Health`, `Protocol`, `Policy`, `Latency` | theorems over all runs |
| `Witnesses` | concrete runs showing what can go wrong, and that the conditions above are the exact ones |
| `Shutdown`, `Extension` | interleavings: worker against `stop`, and hooks, listeners, timer and worker |
| `Locks`, `Ages` | the startup sweep and its age printer |
| `Decimal`, `Calendar`, `Frontmatter`, `Yaml`, `Stamping` | the stamper, from digits up |

Every git command meets an arbitrary `Outcome` drawn from the oracle: writes to the working tree and
pushes by other clones just before it, its exit code, a kill by the timeout or another exception, how
much of its work it had done by then, how long it took, and how long the worker was busy before
issuing it. Git's own rules decide only what it
cannot do: exit 0 on a non-fast-forward push, a rebase from an unclean index, and so on. A theorem
for every oracle is a theorem for every behaviour of the outside world.

A file *version* is a path with the content it was given (or its deletion). A version is
*acknowledged* when a commit that introduced it exited 0, and *recorded* in a history when one of its
commits introduces it. Recording is the right notion of "not lost": another clone may later change
the file again, but the version can be recovered from history.

## What the theorems assume

- *Settled start*: the clone begins on its branch, with no rebase in progress and no conflict markers
  in its tree, its index or any commit. Only `Safety.HealthyMeansInStep` also starts with the index
  equal to HEAD.
- *Configured branch*: empty, the checked-out branch, or `HEAD`. `Witnesses.BranchMustBeCheckedOut`
  shows that with a remote the guarantee holds exactly then.
- Nothing is assumed of the run: killed rebases, failed aborts, lost acknowledgements, exceptions of
  any kind and pushes by other clones may come anywhere.

An acknowledged version is *anchored* if no rebase was in progress when its commit exited 0, and
*adrift* if one was. Anchored versions are never lost. `Safety.ForgottenExactly` shows that whether
anything acknowledged is missing depends on the adrift ones alone, and that there are none exactly
when no commit exited 0 in the middle of a rebase.

## What turned out differently from the documentation

- A rebase killed by the timeout is swallowed with no abort (worker.py:322-324). The next write is
  committed on the detached HEAD and acknowledged; the next cycle's abort throws it away; the cycle
  after clears the flag. In the end the worker is healthy with nothing unpushed and the version is
  nowhere (`Witnesses.KilledRebaseForgets`). If the kill leaves a half-merged file, the next sweep
  commits the markers (`Witnesses.KilledRebaseCommitsMarkers`), though only on the detached HEAD: they
  never reach a branch or the remote (`Safety.MarkersReachNoBranch`).
- The module promises that no other thread touches git (worker.py:3-5). `stop` joins for the command
  timeout plus five seconds, but one turn of the loop may issue eight commands, or nine when it has to
  resolve the branch, and `Shutdown.LongestTurnHappens` has the worker perform such a turn. Two
  threads can be in git at once exactly when there is a remote and the join budget does not exceed
  the longest turn, as it never does for a timeout of a second or more (`Shutdown.OverlapExactly`,
  `Shutdown.CodeBudgetAllowsOverlap`).
- With a configured branch that is not checked out, pushes succeed, the flag clears, and nothing
  acknowledged is on the remote (`Witnesses.OtherBranchForgets`).
- An exception other than the timeout leaves the health record alone (worker.py:196-197), so a worker
  may look healthy with an index that differs from HEAD (`Witnesses.ExceptionLeavesHealthAlone`) until
  its next event. `Safety.RaisedLeavesExactly` gives what each raising command can leave.
- "Local wins" has a proviso: a rebase skips a commit whose patch upstream already holds, so if
  upstream made the same edit and then changed its mind, upstream wins (`Rebasing.SkippedCommitLoses`).
  `Rebasing.LocalWins` gives the content of every path in every case.
- "Stop the timer first so it enqueues nothing further" (extension.py:125-131) is off by one: an event
  between the wait and the put still arrives, and never more than that one (`Extension.OneLateTimerEvent`,
  `Extension.EveryScheduleIsSound`).
- One unreadable process entry is skipped, not taken as unknown (locks.py:89-90), so a live git whose
  name cannot be read loses its lock (`Locks.UnreadableOwnerLosesItsLock`).
- `modified` can go back when the file's mtime lies ahead of the clock (`Stamping.ModifiedGoesBackExactly`),
  and a write that lands in a later second than its stamp leaves the gate open (`Stamping.RestsExactly`).

## Model

| member | source | states |
|---|---|---|
| `Safety.RemoteIsNeverOverwritten` | src/obsidian_git_sync/git_ops.py:205-208 | Over every run and every behaviour of the world, each remote history is a prefix of what it becomes; no hypothesis. |
| `Safety.NoAcknowledgedVersionIsForgotten` | src/obsidian_git_sync/worker.py:229-361 | Over every run from a settled clone, killed rebases and failed aborts included: the clone is settled or in the middle of a rebase of its branch; every version acknowledged with no rebase in progress is recorded on the branch, and on the remote unless `_unpushed` is set. |
| `Safety.ForgottenExactly` | src/obsidian_git_sync/worker.py:320-347 | Everything acknowledged is on the branch iff everything acknowledged mid-rebase is, likewise on the remote when `_unpushed` is clear; and nothing was acknowledged mid-rebase iff no commit exited 0 with a rebase in progress. |
| `Safety.MarkersReachNoBranch` | src/obsidian_git_sync/worker.py:337-347 | In every run under any configuration no commit on any branch, tracking ref or remote branch holds conflict markers; with no rebase in progress neither does the tree or the index; with one, an abort will clear them. |
| `Safety.RebaseLeftOpenExactly` | src/obsidian_git_sync/worker.py:320-347 | No turn of a run ends with a rebase in progress iff no rebase was killed once begun and no abort failed to end one. |
| `Safety.HealthyMeansInStep` | src/obsidian_git_sync/worker.py:189-257 | In every run, with no rebase in progress, a worker that is not degraded has its index equal to HEAD unless the last staging, inspecting or committing command raised something other than the timeout. |
| `Safety.EventComesClean` | src/obsidian_git_sync/worker.py:199-257 | From any state at all, an event that issues commands leaves the worker degraded, or raising, or with index equal to HEAD: agreement is restored by the next event. |
| `Safety.RaisedLeavesExactly` | src/obsidian_git_sync/worker.py:192-197 | For each command that raises, the exact condition under which index and HEAD agree after it. |
| `Safety.FlushDelivers` | src/obsidian_git_sync/worker.py:310-361 | One flush, from mid-rebase too, leaves everything anchored on the remote, or there is no remote, or an attempt was made whose last command was no successful push. |
| `Safety.RunThenStopDelivers` | src/obsidian_git_sync/worker.py:161-185 | The same after any whole run from a settled clone followed by `stop` with the worker joined. |
| `Safety.LoopTurnKeeps` | src/obsidian_git_sync/worker.py:161-174 | One turn of the loop keeps all of that, whatever state it begins in. |
| `Safety.RebaseThenPushKeeps` | src/obsidian_git_sync/worker.py:338-352 | The rebase half of a push cycle keeps it in all its branches, including a rebase killed without an abort and an abort that fails. |
| `Safety.DeliverKeeps` | src/obsidian_git_sync/worker.py:349-352 | The flag is cleared only when the remote has everything anchored; in the middle of a rebase too. |
| `Witnesses.KilledRebaseForgets` | src/obsidian_git_sync/worker.py:320-326 | A run from a settled clone, with one rebase killed by the default timeout, ending healthy with nothing unpushed while an adrift version is on neither the remote, the branch nor disk. |
| `Witnesses.KilledRebaseCommitsMarkers` | src/obsidian_git_sync/worker.py:320-326 | A run in which a sweep commits conflict markers left by a killed rebase on a detached HEAD and calls the cycle clean. |
| `Witnesses.BranchMustBeCheckedOut` | src/obsidian_git_sync/worker.py:304-308 | With a remote, anchored versions are kept in every run iff the configured branch is empty, the checked-out one, or HEAD. |
| `Witnesses.OtherBranchForgets` | src/obsidian_git_sync/worker.py:304-308 | For every other configured branch, a run of successes only that clears the flag with the version on no remote branch. |
| `Witnesses.ExceptionLeavesHealthAlone` | src/obsidian_git_sync/worker.py:189-197 | An exception while inspecting leaves a healthy worker, no rebase in progress, whose index differs from HEAD. |
| `Cycles.OneRealCommitPerEvent` | src/obsidian_git_sync/worker.py:199-257 | In any state, however commands end, an event adds at most one commit, tagged for it and never empty; if the index agreed with HEAD an MCP commit changes only the event's own paths. |
| `Cycles.AckIsExact` | src/obsidian_git_sync/worker.py:247-257 | An event acknowledges exactly the versions by which it moved HEAD when its commit exits 0, adrift if a rebase is in progress and anchored otherwise, and nothing else; a commit that lands and is killed is not covered. |
| `Cycles.CleanSweepCatchesUp` | src/obsidian_git_sync/worker.py:225-257 | After any history, a sweep that ends clean leaves HEAD and the index equal to the working tree as its staging found it. |
| `Cycles.CleanWriteRecordsItsPaths` | src/obsidian_git_sync/worker.py:199-223 | An MCP write that ends clean leaves HEAD holding each of its paths as found on disk, deletions included. |
| `Cycles.AddFailsAsAWhole` | src/obsidian_git_sync/git_ops.py:123-130 | A write naming a path neither on disk nor in the index stages, commits and acknowledges nothing, and is recorded as failed unless staging raised. |
| `Cycles.EchoesAddNoCommit` | src/obsidian_git_sync/worker.py:161-257 | With nothing new on disk or on the remote and nobody interfering, any number of turns, events and push cycles alike and however their commands end, add no commit. |
| `Cycles.PushedCycleLetsLocalWin` | src/obsidian_git_sync/worker.py:310-352 | A push attempt of the worker whose commands all exit 0 clears the flag and leaves the remote extending what was fetched; each path holds what its last local commit not already upstream gave it, or the fetched content if there is none. |
| `Rebasing.RebaseLosesNoVersion` | src/obsidian_git_sync/git_ops.py:190-199 | A completed rebase records every version the local history recorded, whether its commit was replayed, skipped or dropped. |
| `Rebasing.LocalWins` | src/obsidian_git_sync/git_ops.py:190-199 | The content of every path after any completed rebase: what its last local commit not already upstream gave it, or upstream's if there is none. |
| `Rebasing.ReplayedTree` | src/obsidian_git_sync/git_ops.py:190-199 | The same for a replay under way, commit by commit. |
| `Rebasing.SkippedCommitLoses` | src/obsidian_git_sync/git_ops.py:190-199 | Two histories where a path touched locally ends with upstream's content: "local wins" is not unconditional. |
| `Rebasing.StopsExactly` | src/obsidian_git_sync/git_ops.py:190-199 | A pick stops iff one side changed a path that the other deleted; clashing contents never stop it. |
| `Rebasing.RebasedExtendsUpstream` | src/obsidian_git_sync/git_ops.py:190-199 | A completed rebase keeps every upstream commit as a prefix. |
| `Rebasing.RebasedStaysUnmarked` | src/obsidian_git_sync/git_ops.py:190-199 | A completed rebase of unmarked histories commits no conflict marker. |
| `Repository.SettledStep` | src/obsidian_git_sync/git_ops.py:123-218 | From a settled clone every command with every outcome leaves it settled, or is a rebase that did not exit 0 and leaves exactly a rebase in progress. |
| `Repository.MidStep` | src/obsidian_git_sync/git_ops.py:123-218 | In the middle of a rebase no command moves any branch; only an abort that takes effect ends it, settling the clone with index equal to HEAD; one that exits 0 took effect. |
| `Repository.AbortUndoesRebase` | src/obsidian_git_sync/git_ops.py:201-203 | Aborting a rebase wherever it stopped gives back the very repository it began from, unless untracked files were in its way. |
| `Repository.BranchKeepsVersions` | src/obsidian_git_sync/git_ops.py:123-208 | No command takes a recorded version off the branch, on a settled clone or in the middle of a rebase. |
| `Repository.RemoteOnlyGrows` | src/obsidian_git_sync/git_ops.py:205-208 | No command, in any state, rewrites a remote branch. |
| `Repository.PushDelivers` | src/obsidian_git_sync/git_ops.py:205-208 | A push under the branch's name or HEAD that exits 0 leaves the remote branch equal to it, in the middle of a rebase too. |
| `Repository.CommitRecords` | src/obsidian_git_sync/git_ops.py:172-181 | A commit that exits 0 adds one commit of the index, changes the tree, and records every version by which HEAD changed. |
| `Repository.PushCommandsKeepStep` | src/obsidian_git_sync/git_ops.py:185-218 | The commands of a push cycle keep index and HEAD in step unless they leave a rebase in progress; the abort that ends one puts them in step. |
| `Health.HealthIsLastOutcome` | src/obsidian_git_sync/worker.py:229-296 | After any run `_degraded_rc` is the last outcome among the commands issued, and the log is exactly the one the sequence of outcomes deserves; pushes, empty writes and idle waits do not enter. |
| `Health.LogCounts` | src/obsidian_git_sync/worker.py:261-296 | Warnings equal the maximal runs of equal failure codes; streak-opening warnings minus recoveries is 1 if degraded and 0 otherwise. |
| `Protocol.EveryRunIsBooked` | src/obsidian_git_sync/worker.py:161-361 | In every run: the order of commands the policy prescribes, with no cycle cut short and no push cycle opened unless one is owed; one ping per ok push iff a URL is set; no remote command without a remote; `_unpushed` iff something was reported committed since the last ok push; `_last_push` the time that push ended. |
| `Policy.EveryTurnFollowsItsScript` | src/obsidian_git_sync/worker.py:161-361 | In every run each turn issues exactly the commands its script says: which paths, tag and branch name, when to go on and when to stop, and a push attempt iff one is owed, there is a remote and the queue was quiet or the interval is over. |
| `Policy.TurnIssues` | src/obsidian_git_sync/worker.py:161-174 | The same for one turn from any state between turns. |
| `Policy.EventIssues` | src/obsidian_git_sync/worker.py:199-257 | The commands of one event, and the clock they leave. |
| `Policy.AttemptIssues` | src/obsidian_git_sync/worker.py:304-349 | The commands of one push attempt, from resolving the branch to the push. |
| `Policy.PushesNameTheBranch` | src/obsidian_git_sync/worker.py:304-349 | On a branch that is configured or left to be resolved, everything is rebased onto and pushed under that branch's own name. |
| `Policy.IdleQueueNeverPushes` | src/obsidian_git_sync/worker.py:310-318 | With nothing unpushed, or no remote, a quiet turn does nothing but wait. |
| `Latency.PushLatencyIsBounded` | src/obsidian_git_sync/worker.py:161-174 | However the queue is fed, after a commit at time c with last successful push L a push cycle begins by max(c, L+M)+D+4(S+T)+S: M the interval, D the debounce window, T the timeout of a command, S the longest stamping or other work before one. |
| `Latency.QuietQueuePushes` | src/obsidian_git_sync/worker.py:164-168 | Whatever the health, a quiet debounce window with something unpushed is followed by a push attempt at once. |
| `Latency.WaitingIsBounded` | src/obsidian_git_sync/worker.py:300-302 | The same from any waiting state that is not overdue, by induction over the turns. |
| `GitWorkers.GitOps.CommitStaged` | src/obsidian_git_sync/git_ops.py:172-181 | Inspects again; an ok no-op when nothing is staged, else the commit. |
| `GitWorkers.GitWorker.constructor` | src/obsidian_git_sync/worker.py:78-112 | The fields start as in the specification's fresh state. |
| `GitWorkers.GitWorker.StageAndCommit` | src/obsidian_git_sync/worker.py:229-257 | The state it leaves is the specification's, in each of its failure modes. |
| `GitWorkers.GitWorker.HandleEvent` | src/obsidian_git_sync/worker.py:189-227 | Dispatch by kind, a write without paths doing nothing. |
| `GitWorkers.GitWorker.MaybePush` | src/obsidian_git_sync/worker.py:310-326 | Nothing without unpushed commits or a remote; otherwise one attempt with exceptions swallowed. |
| `GitWorkers.GitWorker.PushOnce` | src/obsidian_git_sync/worker.py:328-361 | The attempt, from resolving the branch to the fields a successful push sets. |
| `GitWorkers.GitWorker.Run` | src/obsidian_git_sync/worker.py:161-174 | The loop computes the specification's run; a worker fresh from its constructor has then kept every anchored version, booked its flags and chronicled its health as the theorems say. |
| `GitWorkers.GitWorker.Stop` | src/obsidian_git_sync/worker.py:176-185 | With the worker joined: the flag set and one flush, which keeps what was kept and delivers everything anchored unless its attempt fails. |
| `Shutdown.TurnsAreShort` | src/obsidian_git_sync/worker.py:161-174 | No turn of the worker issues more commands or takes longer than a debounce window and eight or nine slots; a quiet one at most those of a push cycle. |
| `Shutdown.LongestTurnHappens` | src/obsidian_git_sync/worker.py:161-174 | Under every configuration with a remote some turn of the worker attains that bound, each command using its whole slot. |
| `Shutdown.OverlapOnlyAfterExpiry` | src/obsidian_git_sync/worker.py:161-185 | In every interleaving two threads are in git at once only after `join` expired, with a remote, and a budget not exceeding the longest turn. |
| `Shutdown.FlushIsAlone` | src/obsidian_git_sync/worker.py:176-185 | Without expiry the worker has exited before the flush begins. |
| `Shutdown.OverlapExactly` | src/obsidian_git_sync/worker.py:176-185 | An overlap is reachable iff there is a remote and the budget does not exceed the longest turn of the loop. |
| `Shutdown.CodeBudgetAllowsOverlap` | src/obsidian_git_sync/worker.py:181-185 | With the budget the code gives, timeout plus five, an overlap is reachable iff five seconds do not exceed the rest of the longest turn: always, for a timeout of a second or more. |
| `Extension.EventQueue.Put` | src/obsidian_git_sync/events.py:69-71 | Appends; everything put is what was got followed by what is queued. |
| `Extension.EventQueue.GetNowait` | src/obsidian_git_sync/events.py:73-75 | Takes the oldest event, or reports emptiness and changes nothing. |
| `Extension.EventQueue.Drain` | src/obsidian_git_sync/events.py:77-88 | Returns everything queued in order and leaves nothing, losing and reordering nothing. |
| `Extension.EveryScheduleIsSound` | src/obsidian_git_sync/extension.py:50-135 | Over every interleaving of the hooks' statements, one step per lock, with listeners, timer, worker and a shutdown at any point: puts equal gets followed by the queue; the locks removed are those the sweep dooms and all precede the worker's start and first command; at most one timer event after the timer's flag and one event taken after the worker's; disabled, nothing happens. |
| `Extension.OneLateTimerEvent` | src/obsidian_git_sync/extension.py:116-135 | A schedule in which one timer event does arrive after the stop flag was set. |
| `Extension.ProducersEnqueue` | src/obsidian_git_sync/extension.py:68-80 | Once attached a listener loses no event; a timer whose wait runs out enqueues a timer sweep and waits again. |
| `Extension.ShutdownStops` | src/obsidian_git_sync/extension.py:125-135 | However the threads run on after a shutdown, the timer returns at its next wait and a worker that exists at its next look at the flag. |
| `Extension.WorkerTakesTheOldest` | src/obsidian_git_sync/events.py:73-75 | The worker takes the oldest event queued. |
| `Locks.GitRunning` | src/obsidian_git_sync/locks.py:72-91 | The scan with its early exit says whether another readable process is named git; unknown when the table is unreadable or lists no other process. |
| `Locks.GitDir.FindLocks` | src/obsidian_git_sync/locks.py:53-69 | The listed locks still present, in order, with their ages. |
| `Locks.GitDir.Sweep` | src/obsidian_git_sync/locks.py:115-143 | The files left are exactly those not doomed, with one notice per lock found, in order. |
| `Locks.SweepIsExact` | src/obsidian_git_sync/locks.py:94-143 | A file is removed iff it is named `*.lock` in the git directory or under `refs/`, is still there, can be unlinked, is at least 240 s old, processes can be listed, and none of the others is readably a git. |
| `Locks.NoticesSayWhy` | src/obsidian_git_sync/locks.py:94-143 | Each notice, and the reason in it, iff the process table, the age and the outcome of the unlink call for it. |
| `Locks.FoundInOrder` | src/obsidian_git_sync/locks.py:62-69 | The locks found keep the order of the listing. |
| `Locks.LiveOwnersKeepTheirLocks` | src/obsidian_git_sync/locks.py:72-102 | If any lock has a live owner that is another readable git, nothing is removed. |
| `Locks.UnreadableOwnerLosesItsLock` | src/obsidian_git_sync/locks.py:85-91 | A live git whose name cannot be read does lose its lock. |
| `Ages.DecodeInvertsFormat` | src/obsidian_git_sync/locks.py:105-112 | Decoding a printed age gives it back below a minute and whole minutes above. |
| `Ages.PrintAlikeExactly` | src/obsidian_git_sync/locks.py:105-112 | Two ages, negative ones included, print alike iff they share that bucket. |
| `Ages.PrintsProperUnits` | src/obsidian_git_sync/locks.py:105-112 | Every age is printed in its proper units, hours below 24, minutes and seconds below 60, zero units left out. |
| `Frontmatter.SplitInvertsAssemble` | src/obsidian_git_sync/stamping.py:49-63 | Splitting an assembled note returns its block and body. |
| `Frontmatter.AssembleInvertsSplit` | src/obsidian_git_sync/stamping.py:49-63 | A text that splits is exactly the assembly of its parts, and the block holds whole lines, none a delimiter. |
| `Frontmatter.SplitExactly` | src/obsidian_git_sync/stamping.py:49-63 | Both together: a text splits into a block and a body iff it is their assembly and the block is a proper one. |
| `Frontmatter.NoBlockExactly` | src/obsidian_git_sync/stamping.py:56-60 | A text is returned whole, as body, iff it is no assembly of a block and a body. |
| `Frontmatter.NoEarlierMark` | src/obsidian_git_sync/stamping.py:58 | No match lies inside the block or straddles the closing delimiter. |
| `Calendar.DateOfDay` | src/obsidian_git_sync/stamping.py:44-46 | Every day to the end of 9999 has a valid date with that day number, by the closed Gregorian formula. |
| `Calendar.ParseInvertsEmit` | src/obsidian_git_sync/stamping.py:66-79 | Every second from 1970 to the end of 9999 is emitted as a text that parses back to it. |
| `Calendar.ParseExactly` | src/obsidian_git_sync/stamping.py:75-79 | A text parses to a second iff it spells a valid date and time of that second, in any spelling `strptime` takes. |
| `Calendar.DatesAreGregorian` | src/obsidian_git_sync/stamping.py:44-46 | Valid dates and their day numbers by a closed Gregorian formula that knows no month lengths. |
| `Yaml.LoadInvertsDump` | src/obsidian_git_sync/stamping.py:108-127 | Dumped flat data loads back as it was. |
| `Yaml.DumpInvertsLoad` | src/obsidian_git_sync/stamping.py:108-127 | Whatever loads is dumped back unchanged, byte for byte. |
| `Yaml.DumpIsBlock` | src/obsidian_git_sync/stamping.py:125-128 | Dumped data never holds a delimiter line, so the note written splits again. |
| `Stamping.UnquoteDump` | src/obsidian_git_sync/stamping.py:38-41 | Removing quotes from the dumped text line by line is removing them from exactly the two timestamp entries. |
| `Stamping.ShapeExactly` | src/obsidian_git_sync/stamping.py:38-41 | The timestamp shape, part by part. |
| `Stamping.StampedExactly` | src/obsidian_git_sync/stamping.py:120-127 | The data a stamp leaves, entry by entry: each in its place, the two timestamps set, missing ones added at the end. |
| `Stamping.StampWritesExactly` | src/obsidian_git_sync/stamping.py:120-132 | A stamp that writes puts a block of exactly those entries in front of the whole old body, or in front of the whole text when there was no block. |
| `Stamping.GateReadsExactly` | src/obsidian_git_sync/stamping.py:66-79 | The gate knows a second iff some `modified` entry spells it, plain or in single quotes. |
| `Stamping.StampsExactly` | src/obsidian_git_sync/stamping.py:108-133 | When a stamp writes: always without a block or a readable `modified`, never when the block does not load or the gate is shut, otherwise iff the text would change. |
| `Stamping.StampKeepsTheRest` | src/obsidian_git_sync/stamping.py:82-133 | A stamp that writes keeps the body, all other entries in order and any set `created`; `modified` is the current second, unquoted, and reads back as it. |
| `Stamping.ModifiedGoesBackExactly` | src/obsidian_git_sync/stamping.py:115-123 | A stamp lowers a readable `modified` iff the clock reads earlier than it; never when the file was not written in the future. |
| `Stamping.RestsExactly` | src/obsidian_git_sync/stamping.py:112-118 | After a write the file is left alone at every later clock iff the write landed in the stamped second or before. |
| `Stamping.StampsQuiesce` | src/obsidian_git_sync/stamping.py:82-133 | Then any number of later stamps change nothing. |
| `Stamping.ModifiedNeverDecreases` | src/obsidian_git_sync/stamping.py:82-133 | Under a monotone clock `modified` never decreases over any number of stamps. |
| `Stamping.Vault.StampNote` | src/obsidian_git_sync/stamping.py:82-136 | The method's file and result are those of the specification; a missing file or unreadable block is left alone. |
| `Stamping.Vault.StampPaths` | src/obsidian_git_sync/stamping.py:139-143 | One stamp per path in turn; one left alone does not stop the rest. |
| `Stamping.StampEachExactly` | src/obsidian_git_sync/stamping.py:139-143 | Over distinct paths each file on disk becomes its own stamp and every other stays as it is. |

## Left out

- Subprocess calls, argument lists, credentials and author identity: a command is its outcome and its effect.
- Git's hunk-level merge, renames, ignored files, hooks, merge commits and submodules: a file is one value, histories are linear, and a clash between a change and a deletion is the only conflict `-X theirs` cannot settle.
- A configured branch is taken as a plain branch name or HEAD, not any other revision or refspec; the tracking name HEAD does not change while the worker runs.
- `rev-parse` for a `.git` file and the cached git directory, and the lock note inside warnings: `describe_present` only adds log text.
- Commit message wording beyond the `mcp:`/`sync:` tag, and log text beyond level and code.
- GitWorkers.GitWorker.HandleEvent: notes the worker stamps before staging appear as writes to the working tree just before `add`, which the theorems allow to be anything, and the time it takes as time before that command; `Stamping` has what a stamp does.
- Yaml.LoadInvertsDump: flat `key: value` lines only; ruamel's comments, nesting, double quotes, line folding and its own timestamp objects are not modelled, and the loader is taken to hand back the text.
- Yaml.DumpInvertsLoad: flat lines only, as above.
- Stamping.StampKeepsTheRest: flat frontmatter only, as above; falsy scalars beyond the common spellings of null, false and zero count as set.
- Calendar.ParseInvertsEmit: the parser follows `strptime` on ASCII digits; other Unicode digits are not modelled.
- The `.md` suffix test and non-regular files in `stamp`: a path is on disk or it is not.
- Locks.GitDir.FindLocks: takes the listing of lock files as given, each once and in any order, and does not sort it; `SweepIsExact` says which names a listing holds.
- GitWorkers.GitWorker.Run: the events and empty waits come as a list rather than from the queue object, and the stop flag being set during the loop appears as the end of that list; `Shutdown` has the interleaving.
- GitWorkers.GitWorker.Stop: assumes the worker joined; what happens otherwise is in `Shutdown`, which keeps only who is inside a command and for how long, not the repository.
- Latency.PushLatencyIsBounded: debounce and interval are finite, although the configuration check lets `nan` and `inf` through (config.py:261-266).
- Safety.NoAcknowledgedVersionIsForgotten: covers commits of this process that exited 0; `_unpushed` starts false, so earlier processes' commits are not covered by the code either.
- Heartbeat HTTP, which never raises: only the count of pings matters, and the time of a ping after the last command of a turn is not counted in it.
- Configuration parsing, the credential helper, extension hosting, the sidecar scripts and deployment files.
