# hpc-relay, verified

Dafny models of the parts of hpc-relay that are hard to get right, with proofs of what they promise.

**The shared poller.** Any number of waiters, in any number of flow runs, share a store of variables: one status
variable per Slurm job and one lease variable per HPC. Every `aget`, `aset`, `aunset`, listing, slot acquisition or
release, clock reading and cluster command is one step of `Protocol.dfy`; a waiter may crash between any two of them
and a server call may fail whether or not it took effect. `WaitLoop.dfy` is the imperative form: `wait_completion_single`
and everything below it, request by request, with arbitrary steps of the other waiters in between; its history is proved
to be a run of the step system, so every theorem about runs holds of it. On top stand
`LeaseSpacing`, `Provenance`, `Ownership`, `Interference`, `Marker`, `Fold`, `Progress`, `Takeover`, `RefreshBound`,
`Staleness` and `Outage`.

**Submission and resumption.** `CacheKeys` (which calls share a result), `Submission` (a job is submitted at most once,
apart from submissions lost between the cluster and the commit and from calls of it that overlap) and `Resumption` (a killed and resumed flow ends like an
uninterrupted one).

**sacct.** `Sacct` (reading rows out of noise) and `AwaitCompletion` (the caching loop agrees with the plain one).

**The shell.** `ShellWords` (a POSIX tokenizer, `shlex`, `quote_path`), `SbatchCommand` (the `sbatch` line) and `JobIds`.

**Streams.** `EscapeStream` and `LogReport` (the awk escape and the way back through JSON), `Utf8`, `HeadTail` and
`StdoutDrain`.

`Wrappers`, `Text`, `SlurmStates`, `Names` and `LonePaths` serve the others. `dafny verify dfyconfig.toml` checks all of it.

## Assumptions

- All waiters read one monotone clock (`Tick`).
- The per-HPC slot has limit 1, and a holder that loses it is stopped (`strict=True`); a slot nobody renews lasts 180 s.
- Where a theorem needs a listing to be complete it requires at most 200 variables in the store.
- What is said of a returned state (not of the variables) needs `Separated`: no HPC is named like another one with `_`
  and a positive number appended. `NamesInjectiveIff` shows that this is exactly what makes names unambiguous.
- What is said of a variable's owner over a run needs `OwnerSteady` for that variable: nobody changes its owner between
  a setter's read of it and its write. `OwnerIsLostIff` says exactly which step loses an owner, without that.
- On a survivor's path (`LonePaths`) one waiter's own calls succeed and nobody stops it, while the others do as they
  like; on a lone path the others take no steps. Time passes as it likes on both. `Work` counts the survivor's own steps.

## Where the code differs from what is said about it

- `slurm.py:231`: a state column of blanks raises an uncaught `IndexError` (`Sacct.RaisesIff`, `Sacct.BlankStateRaises`).
- `_sbatch.py:473`: the owner is kept by a read and a write; what another flow writes in between is lost
  (`Ownership.OwnerIsLostIff`, `Interference.OwnerCanBeLost`).
- `_sbatch.py:649`: the guard's result is tested for emptiness, so a cancelled flow folds a job only once its listing
  finds some job of the flow; a waiter whose variable is missing needs one more iteration (`Fold.CancelledFlowFolds`).
- `slurm.py:161`: the pattern's `$` accepts a home directory followed by a newline, which `quote_path` then quotes
  (`SbatchCommand.AcceptedHomeIsLiveIff`, `SbatchCommand.TildeNewlineIsNoHome`).
- `run.py:62`: the printed text is a JSON string body only without further control characters and when the limit does
  not fall inside an escape; `splitlines` also cuts the report at U+0085, U+2028 and U+2029. Either loses the whole
  report (`LogReport.LogsReadBackIff`); 99999 letters and a quote do (`LogReport.QuoteAtTheLimit`).
- `launch_slurm.py:100`: the tail is clipped at its end, so what is lost is the end of the output
  (`HeadTail.EndIsKeptIff`, `HeadTail.EndOfLineIsLost`).
- `_jsc.py:239`: a read that ends inside a character leaves a replacement character behind for good
  (`StdoutDrain.DrainConservesIff`, `StdoutDrain.AccentIsLost`).

## Model

| member | source | states |
|---|---|---|
| LeaseSpacing.LeasesAreSpaced | src/hpc_relay/_sbatch.py:771-793 | over every run, the leases written for an HPC were computed at least 20 s apart, and any closed window of length d holds at most d / 20 + 1 of them |
| LeaseSpacing.RefreshesNeverExceedGrants | src/hpc_relay/_sbatch.py:789-803 | over every run, the sacct calls made for an HPC, those whose caller was killed before the answer included, are at most as many as the leases written for it |
| LeaseSpacing.StepKeepsInv | src/hpc_relay/_sbatch.py:551-577 | every step of the system, crashes and expiring slots included, keeps: one waiter in the section, the lease shows the last grant, a stamp is taken only after the lease was found expired inside the section, a grant is spent once |
| Provenance.VariablesShowReports | src/hpc_relay/_sbatch.py:799-811 | over every run, a status variable is filed under its own job's name and shows PENDING, CANCELLING or a state some earlier sacct output gave for that very job |
| Provenance.ReturnedStatesWereReported | src/hpc_relay/_sbatch.py:634-677 | over every run, a returned state is terminal and, where names are unambiguous, was printed by sacct for the waiter's own job on its HPC; or it is a fold, and the flow was cancelled |
| Provenance.StepKeepsInv | src/hpc_relay/_sbatch.py:470-515 | every step keeps the provenance of every variable and of everything a waiter is about to write or return |
| Names.NamesInjectiveIff | src/hpc_relay/_sbatch.py:458-459 | status variable names are injective on (HPC, valid job id) exactly when no HPC is named like another with an array index appended |
| Names.StatusIsNoLease | src/hpc_relay/_sbatch.py:458-463 | no status variable is a lease variable |
| Names.LeaseNameInjective | src/hpc_relay/_sbatch.py:462-463 | HPCs never share a lease variable |
| Ownership.OwnerIsLostIff | src/hpc_relay/_sbatch.py:470-497 | a step takes a variable from the flow that owns it exactly when it is the writing half of a _set_status of that very variable whose reading half chose another owner |
| Ownership.OwnerIsKept | src/hpc_relay/_sbatch.py:473-482 | a variable with an owner keeps it from insertion to deletion, whichever flow's waiters refresh it, if nobody changes its owner between a setter's read of it and its write |
| Ownership.UninterruptedIsSteady | src/hpc_relay/_sbatch.py:470-497 | that holds of every variable when no step comes between the two halves of a _set_status |
| Ownership.GuardWritesOnlyListed | src/hpc_relay/_sbatch.py:729-735 | in every state, from its listing to its scancel a guard changes no variable it did not list, and writes nothing but the mark |
| Ownership.ListedOfAnotherFlow | src/hpc_relay/_sbatch.py:731-735 | a variable a guard has listed belongs to another flow, or to none, only when it was deleted and created anew since the listing |
| Ownership.GuardSparesOtherFlows | src/hpc_relay/_sbatch.py:729-735 | from its listing to its scancel, the guard of a flow leaves every other flow's variable unchanged, unless it listed that variable as its own and it was deleted and created anew since |
| Ownership.GuardMarksWhatItListed | src/hpc_relay/_sbatch.py:734-735 | in which case it does mark it, whoever owns it then, and leaves it its owner |
| Ownership.GuardCancelsOnlyItsOwn | src/hpc_relay/_sbatch.py:737-750 | what a guard newly passes to scancel are exactly the jobs it listed, each still its own flow's unless the variable was deleted meanwhile |
| Ownership.ScancelledIff | src/hpc_relay/_sbatch.py:737-750 | a job reaches scancel exactly with the call of a guard that listed it |
| Ownership.GuardListsExactly | src/hpc_relay/_sbatch.py:522-540 | with at most 200 variables the guard picks exactly the active jobs its flow owns on the HPC, in any listing order |
| Ownership.OwnerChangesIff | src/hpc_relay/_sbatch.py:477-483 | one complete _set_status changes a present variable's owner exactly when it had none and the writer is in a flow: ownerless variables are adopted by the first refresher |
| Interference.OwnerCanBeLost | src/hpc_relay/_sbatch.py:477-497 | for every HPC, job and pair of flows there is a run in which a variable changes owner without being deleted, once another flow's write falls between the read and the write of _set_status; that variable is not steady |
| Marker.MarkIsLostIff | src/hpc_relay/_sbatch.py:543-548 | a step overwrites a CANCELLING mark exactly when it is the writing step of an insertion or refresh of that variable |
| Marker.MarkStays | src/hpc_relay/_sbatch.py:543-548 | with no insertion or refresh of the variable in flight at the mark, the mark stays in every continuation until the variable is deleted |
| Fold.CancelledFlowFolds | src/hpc_relay/_sbatch.py:646-672 | a waiter of a cancelled flow, its variable missing or the flow's own, while the others step as they like but do not insert, refresh or delete that variable (concurrent guards may mark it): it starts no further iteration, or one if the variable was missing; after a bounded number of its own steps it has returned; it returns CANCELLED, its variable gone at that step, and if the variable was there its job went to scancel |
| Fold.ComesBackIff | src/hpc_relay/_sbatch.py:646-672 | a variable that is gone comes back exactly with the write of a waiter that inserts its own job, or of a guard or refresh that listed the job before the deletion |
| Progress.StepIsEnabled | src/hpc_relay/_sbatch.py:580-631 | in every state a waiter that is neither over nor handling a failure has a step to take, if need be once its sleep is over or the slot it queues for has expired, and nothing else has to happen |
| Progress.RankFalls | src/hpc_relay/_sbatch.py:634-677 | each of its own steps, but for waking up and renewing its slot, lowers a rank that counts what is left to do before its next sleep or its return |
| Progress.WorkIsBounded | src/hpc_relay/_sbatch.py:580-631 | however many steps the others take in between, a survivor's own steps are bounded by the iterations it began |
| Progress.EnoughWorkEnds | src/hpc_relay/_sbatch.py:580-631 | a survivor that takes so many steps of its own has begun more than n further iterations or has returned |
| Progress.CanWork | src/hpc_relay/_sbatch.py:580-631 | alone it can take any number of steps, unless it returns before |
| Takeover.EverythingExpiresSoon | src/hpc_relay/_sbatch.py:81-95 | in every reachable state a lease has at most 20 s left and a slot at most 180 s, whoever holds it and whether or not the holder lives |
| Takeover.SurvivorIsNotKeptOut | src/hpc_relay/_sbatch.py:771-787 | in every continuation, wherever the survivor stands at the start, a lone waiter that has not refreshed yet finds the lease expired after 20 s, outside and inside the section, and after 180 s the slot is free or can be freed |
| Takeover.LoneWaiterRefreshes | src/hpc_relay/_sbatch.py:602-631 | a lone waiter, wherever it starts, whose lease runs out within n poll intervals completes a refresh (an answered sacct call, or a listing without jobs) within n + 1 iterations from the first that has it still ahead; from any reachable state n = 4 |
| Takeover.SurvivorRefreshes | src/hpc_relay/_sbatch.py:580-631 | every lone path with so many steps of the survivor has a completed refresh or the survivor's return, wherever it starts and wherever others died |
| Takeover.SurvivorOfAnyRun | src/hpc_relay/_sbatch.py:580-631 | from every state of every run, any waiter that is neither over nor handling a failure can go on alone to that point |
| Takeover.SurvivorTakesOver | src/hpc_relay/_sbatch.py:771-803 | from every reachable state, a survivor at the top of the loop of an uncancelled flow, or anywhere between the fast check and the lease, queued behind a dead holder included, can alone win the lease and list the jobs 180 s later |
| Takeover.FourIterationsRefresh | src/hpc_relay/_sbatch.py:602-631 | wherever a lone waiter starts, once it has slept through an interval any four consecutive iterations contain a completed refresh |
| RefreshBound.RefreshesWithinIff | src/hpc_relay/_sbatch.py:551-564 | an undecided lone waiter is sure of a completed refresh in its next n + 1 iterations exactly when its lease runs out by the start of the last |
| Staleness.TerminalStateIsReturned | src/hpc_relay/_sbatch.py:656-676 | with sacct reporting the job terminal and the variable there, a lone waiter, anywhere in its iteration, begins at most n iterations after the first that has its refresh ahead (n = 4 always); after a bounded number of its own steps it has returned; and it returns a terminal state with its variable gone |
| Staleness.ReturnedStateWasGiven | src/hpc_relay/_sbatch.py:668-676 | where names are unambiguous that state is one sacct gave for this very job |
| Outage.BackoffDoubles | src/hpc_relay/_sbatch.py:602-628 | after k consecutive failures the next backoff is min(5 * 2^k, 60), and an outage is on exactly when k > 0 |
| Outage.GivesUpIff | src/hpc_relay/_sbatch.py:611-619 | the loop gives up exactly when every poll since some failure more than 300 s earlier has failed |
| Outage.NinthFailureEndsIt | src/hpc_relay/_sbatch.py:611-626 | with sleeps at least as long as nominal, no ninth consecutive failure is survived |
| Outage.PromptFailuresGiveUpIff | src/hpc_relay/_sbatch.py:611-626 | when polls fail at once, the ninth failure is exactly the one that ends the wait |
| WaitLoop.ListingSelects | src/hpc_relay/_sbatch.py:528-548 | filtering the listed variables by tags and schema, then by status or owner, selects exactly the jobs the protocol speaks of |
| WaitLoop.Poller.constructor | src/hpc_relay/_sbatch.py:344-400 | a waiter joins a run at the insertion of its variable or at the top of its loop, and the extended history is a run |
| WaitLoop.Poller.SetStatus | src/hpc_relay/_sbatch.py:470-497 | reads the owner, then writes; both requests are steps of the protocol at every place it is called from |
| WaitLoop.Poller.LeaseExpired | src/hpc_relay/_sbatch.py:551-564 | the answer agrees with the protocol's branch, in the fast check and in the re-check |
| WaitLoop.Poller.WriteLease | src/hpc_relay/_sbatch.py:567-577 | the lease written is computed from the stamp read before, and wins a grant |
| WaitLoop.Poller.ListStatusPayloads | src/hpc_relay/_sbatch.py:522-540 | the loop over the listing yields the payloads from which the protocol's next control point follows |
| WaitLoop.Poller.FlowCancellationGuard | src/hpc_relay/_sbatch.py:686-751 | an error only when scancel failed; otherwise the jobs committed, and folding follows exactly when there are any |
| WaitLoop.Poller.TryUpdateStatus | src/hpc_relay/_sbatch.py:754-812 | fast check, section, re-check, lease, release and refresh are steps of the protocol in that order on every path, exceptions included |
| WaitLoop.Poller.PollCompletionOnce | src/hpc_relay/_sbatch.py:634-677 | an answer is the protocol's outcome; no answer means asleep until at most 5 s from now; a raised call leaves the loop to back off |
| WaitLoop.Poller.WaitCompletionSingle | src/hpc_relay/_sbatch.py:580-631 | its history is a run; it gives up exactly when its polls, one per iteration and failed when and where the run says, call for it, and not before; a returned state is terminal and was reported for this job, or is the CANCELLED of a cancelled flow; it ends without an answer only when stopped or no longer watched |
| WaitLoop.Poller.BackOff | src/hpc_relay/_sbatch.py:607-626 | after an exception the loop gives up exactly when its polls call for it, else sleeps the backoff and doubles it |
| WaitLoop.Poller.AwaitSubmitted | src/hpc_relay/_sbatch.py:374-402 | from the insertion of the fresh job's variable: the same outcomes, the same polls and the same exact give-up condition; a server failure of the insertion escapes |
| CacheKeys.ResumedKeysAreFreshKeys | src/hpc_relay/prefect.py:107-117 | a run given the token a fresh run printed uses the fresh run's keys; an empty token is no token |
| CacheKeys.KeySplits | src/hpc_relay/prefect.py:114-117 | with colon-free hashes, keys of one token are equal exactly when task and hash are, whatever the tasks are called |
| CacheKeys.KeysAreDistinctIff | src/hpc_relay/prefect.py:114-117 | across tokens, keys are distinct exactly when no task name is another with a colon, or anything ending in a double colon, put before it; colon-free names suffice |
| Submission.SubmittedAtMostOnce | src/hpc_relay/_sbatch.py:354-368 | over every sequence of crashing, failing and resumed runs, every accepted job is lost between cluster and commit, committed, or about to be, and exactly one of these; while calls of a job do not overlap, its submissions are at most one more than those lost, and exactly one more once committed or about to be |
| Submission.OverlapsBreakItIff | src/hpc_relay/_sbatch.py:354-368 | a job is submitted more often than that exactly when two of its calls, one started while the other was in flight, were both answered and neither was lost |
| Submission.OverlapsAreIff | src/hpc_relay/_sbatch.py:355-368 | two calls overlap in that sense exactly when the second started, and missed the cache, while the first was between its start and its commit |
| Submission.OverlappingCallsSubmitTwice | src/hpc_relay/_sbatch.py:355-368 | for every token, task and parameters two such calls submit the job twice with no crash and nothing lost, and both jobs are monitored |
| Submission.NeverResubmitted | src/hpc_relay/_sbatch.py:354-368 | once any run is past a job's submission, no failure of polling, crash or rerun submits it again: only calls then in flight can still be answered, and without overlapping calls there is none |
| Submission.OneJobIsAwaited | src/hpc_relay/_sbatch.py:280-301 | all runs that share a token monitor the same job, as long as its calls do not overlap |
| Submission.LazyCommitResubmits | src/hpc_relay/_sbatch.py:355-364 | for every token, task and parameters: without the eager commit, a polling failure submits the job twice although nothing was lost and no calls overlap |
| Submission.DistinctCallsDistinctKeys | src/hpc_relay/prefect.py:114-117 | submissions of one token share a key exactly when task and parameters agree |
| Resumption.ResumingIsTransparent | src/hpc_relay/prefect.py:94-117 | a flow killed anywhere, any number of times, and resumed with its printed token completes only with the uninterrupted result, and does complete when undisturbed |
| Resumption.NothingCommittedRunsAgain | src/hpc_relay/prefect.py:160-170 | over all attempts, no task is executed after its result was committed |
| Resumption.UndisturbedIsPlain | src/hpc_relay/prefect.py:94-117 | from whatever interrupted runs left behind, an undisturbed run ends like one without a cache |
| Sacct.QueryStates | src/hpc_relay/slurm.py:196-243 | the loop with its early returns computes the reading of the rows |
| Sacct.ReadStatesIff | src/hpc_relay/slurm.py:222-243 | a query succeeds exactly when every requested row has a known state and every id a row; it answers in input order with each job's last row |
| Sacct.RaisesIff | src/hpc_relay/slurm.py:230-231 | the uncaught IndexError occurs exactly when a requested row has an all-blank state column and none before it is unreadable |
| Sacct.BlankStateRaises | src/hpc_relay/slurm.py:230-231 | for every plain job id, a row with a single blank as its state does |
| Sacct.ReadBackPrinted | src/hpc_relay/slurm.py:218-243 | from any interleaving of printed rows, noise and blank lines, with or without a final newline, the last printed state of every requested job is read back, in input order; a job never printed is the only way to fail |
| Sacct.AnswersAreRows | src/hpc_relay/slurm.py:222-243 | whatever is answered for a job was printed for that very job |
| SlurmStates.NamedIffName | src/hpc_relay/slurm.py:103-137 | a token is read as a state exactly when it is that state's name |
| AwaitCompletion.AwaitCompletion | src/hpc_relay/slurm.py:259-288 | over every sequence of sacct outputs: each job, duplicates included, gets its first terminal report, in input order, or the first failing query's error ends it; every poll asks about exactly the jobs not yet terminal |
| AwaitCompletion.AskWithout | src/hpc_relay/slurm.py:222-243 | a query without some jobs that have a state succeeds exactly when the query with them does, and otherwise fails with the same error, whichever it is |
| AwaitCompletion.CachingRefinesPlain | src/hpc_relay/slurm.py:262-288 | when terminal states are stable, the result, every kind of error and the number of polls are those of the loop that asks about every job every time |
| AwaitCompletion.RequeuedJobSeparatesThem | src/hpc_relay/slurm.py:262-279 | without stability they part, for any two jobs |
| ShellWords.JoinRoundTrip | src/hpc_relay/slurm.py:395-399 | the shell cuts a joined command into exactly the given list of strings |
| ShellWords.QuoteFeeds | src/hpc_relay/slurm.py:369 | a quoted text extends the word being read by exactly that text, all quoted or all not |
| ShellWords.QuotePathIsOneWord | src/hpc_relay/cmd_runners/_types.py:23-44 | every path becomes one word with the path as value, and its tilde is live exactly when the path starts with a home directory |
| ShellWords.RawTextIff | src/hpc_relay/slurm.py:379-390 | an option value put on the line unquoted arrives as it is exactly when it has no special character |
| SbatchCommand.BuildLine | src/hpc_relay/slurm.py:322-404 | a job is accepted exactly when it is usable, a rejection names a real problem, and with plain unquoted values the shell reads the line as exactly the intended arguments |
| SbatchCommand.ResolveStdout | src/hpc_relay/slurm.py:322-358 | the path checks and the default output path |
| SbatchCommand.PathParts | src/hpc_relay/slurm.py:367-377 | name and paths are read as meant, whatever characters they hold |
| SbatchCommand.LimitParts | src/hpc_relay/slurm.py:379-386 | time limit and account are read as meant when plain |
| SbatchCommand.OptionParts | src/hpc_relay/slurm.py:388-390 | so are the further options |
| SbatchCommand.WrapRoundTrip | src/hpc_relay/slurm.py:394-400 | the second level: tokenizing the --wrap value gives back the user's list, for every list of strings |
| SbatchCommand.AcceptedHomeIsLiveIff | src/hpc_relay/slurm.py:160-166 | an accepted home-relative path is expanded by the shell exactly when no newline is stuck to its home directory |
| SbatchCommand.TildeNewlineIsNoHome | src/hpc_relay/slurm.py:160-166 | a tilde and a newline are accepted and not expanded |
| SbatchCommand.JoinStaysAtHome | src/hpc_relay/slurm.py:349-350 | the default output file lies in a home directory exactly when the working directory does |
| JobIds.ParsedIff | src/hpc_relay/slurm.py:452-466 | an id is found exactly when sbatch succeeded and a well-formed id is the last word it printed |
| EscapeStream.GsubsEscapeOnce | src/hpc_relay/run.py:66-69 | the four substitutions one after the other replace every character of a record once |
| EscapeStream.BackslashesMustGoFirst | src/hpc_relay/run.py:68 | with the backslashes replaced last, the result is right for exactly the texts without quotes, tabs and carriage returns |
| EscapeStream.CutReadsBackIff | src/hpc_relay/run.py:70-71 | a truncated text, its closing quote and what follows: it reads back as the characters that fit exactly when these can be carried and the cut is not inside an escape; a cut inside one makes the quote part of the text, and reading goes on |
| EscapeStream.EscapeLines | src/hpc_relay/run.py:66-73 | the record loop puts out exactly the first MAX characters of the whole escaped text |
| EscapeStream.EscapedReadsBackIff | src/hpc_relay/run.py:62-73 | a JSON reader gives the text back exactly when its only control characters are tab, carriage return and newline |
| LogReport.FindReport | src/hpc_relay/run.py:110-114 | the search parses the first line that starts with the header |
| LogReport.LogsReadBackIff | src/hpc_relay/run.py:62-114 | among other output the printed report is found, and it comes back exactly when no window is cut inside an escape and every character that fits is neither a control character other than tab, carriage return and newline nor one of Python's further line ends; each field is then the part of its text that fits, and otherwise nothing comes back |
| LogReport.UncutComesBackIff | src/hpc_relay/run.py:62-114 | a text within the limit comes back whole, exactly when its characters survive |
| LogReport.QuoteAtTheLimit | src/hpc_relay/run.py:70-71 | for every limit, letters up to it with a quote as the last character lose the whole report, although every character survives |
| HeadTail.ClipIsLongestPrefix | src/hpc_relay/extra/launch_slurm.py:93-94 | clipping keeps the longest prefix of whole code points that fits 100000 bytes, and everything exactly when it fits |
| HeadTail.ShortenedIsBounded | src/hpc_relay/extra/launch_slurm.py:86-101 | output within both limits is left alone, anything else becomes at most 200021 bytes |
| HeadTail.EndIsKeptIff | src/hpc_relay/extra/launch_slurm.py:99-101 | the end of the output survives exactly when the last hundred lines fit by themselves |
| HeadTail.EndOfLineIsLost | src/hpc_relay/extra/launch_slurm.py:99-101 | one line of 100001 characters loses its last |
| Utf8.DecodeCut | src/hpc_relay/extra/launch_slurm.py:93-94 | the first n bytes of an encoded text decode to its whole characters, and to one replacement when a character is torn |
| StdoutDrain.Job.DrainStdout | src/hpc_relay/cmd_runners/_jsc.py:262-270 | offset and parts always hold what the reads so far amount to; a failed read changes nothing |
| StdoutDrain.Job.SubmitAndWait | src/hpc_relay/cmd_runners/_jsc.py:272-292 | the returned output is what all reads, the last one included, amount to |
| StdoutDrain.DrainKeepsEverything | src/hpc_relay/cmd_runners/_jsc.py:262-280 | over an append-only text the output is the last successful read: nothing lost, nothing twice |
| StdoutDrain.DrainConservesIff | src/hpc_relay/cmd_runners/_jsc.py:233-270 | over a growing UTF-8 file, whichever reads fail, the last one included, the output is the text exactly when some read reached its last character and none ended inside a character that is not itself a replacement |
| StdoutDrain.WholeReadHasItsLength | src/hpc_relay/cmd_runners/_jsc.py:233-270 | once the whole file was read the output has the text's length |
| StdoutDrain.AccentIsLost | src/hpc_relay/cmd_runners/_jsc.py:233-270 | an accented letter read after its first byte stays a replacement character, though the next read gives it |

## Left out

- LeaseSpacing.LeasesAreSpaced: counts a grant at the clock reading its lease is computed from; the write itself may come later, by as long as its holder keeps the slot.
- Takeover.SurvivorTakesOver: shows a continuation that waits the full 180 s; a shorter wait suffices when the slot is free earlier.
- Takeover.SurvivorRefreshes: speaks of paths on which only the survivor, the clock and expiring slots step; with other waiters alive a refresh may be theirs.
- Fold.CancelledFlowFolds: with a refresh of the waiter's own variable in flight a mark can be lost (Marker.MarkIsLostIff), and a variable deleted by the waiter come back (Fold.ComesBackIff).
- WaitLoop.Poller.WaitCompletionSingle: is watched for a bounded number of requests, since its loop need not end; a failure inside the critical section and the release of the slot that follows are one step.
- ShellWords.JoinRoundTrip: is about words; that a first word like `a=b` is an assignment, reserved words, and pathname expansion of unquoted options are not modelled.
- SbatchCommand.BuildLine: the resolution of `%j` in the returned paths and pathlib's normalization are not modelled; paths are taken as already normal.
- LogReport.FindReport: JSON whitespace, numbers, nested values and `\u` escapes, none of which the remote command prints, are read as errors.
- Submission.SubmittedAtMostOnce: runs sharing a token do not overlap, only calls within a run do; the final result of `sbatch` itself is cached too, which only makes submissions rarer.
- AwaitCompletion.CachingRefinesPlain: what sacct prints at one poll is one text, of which a query reads the rows of the jobs it asks for.
- Resumption.ResumingIsTransparent: task bodies are deterministic, the hash is injective and free of colons, results do not expire (the source's 14 days), and `run_try`, whose errors are cached values, is not a raising task.
- The keyword handling of the `task` and `flow` decorators: that every task has the cache key above and a persisted result is taken as given.
- `_parse_launch_summary` and the stage handling of `launch_slurm.py`: plain field copying.
- The transports, Prefect's engine and server, tags as strings and the flow-name tag, `_ensure_concurrency_limit` (taken to have happened), artifacts, logging, command-line parsers, `scripts/` and `examples/`.
- `_build_remote_command` beyond the quoting of words, since with environment variables the command runs even when its `cd` failed.
- Unicode digits in the job id pattern, and differences between awk dialects: the substitutions do what the comment in `run.py` says.
- Standard output that is not UTF-8, and NUL bytes, which the remote shell drops.
