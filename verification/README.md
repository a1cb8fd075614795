# A verified model of kaos-control's core

kaos-control orchestrates coding agents over a project's Markdown artifacts. This project models, in
Dafny, the parts of it that decide something hard and proves what they promise:

- the **agent run protocol**: semaphore slots, lineage locks and the registry of active runs under
  every interleaving of any number of runs, users and the lock reaper (`Locks`, `AgentRuns`,
  `AgentManager`), the supervisor's reading of an event stream and its verdict (`Streams`,
  `Supervision`, `RingBuffer`), and the Bash policy (`Policy`);
- the **open-questions section**: parser and writer as a lens (`Text`, `Cutting`, `OpenQuestions`,
  `Markdown`, `AnswerLens`, `MarkdownLaws`, `QuestionLoops`), and the automatic blocking driven by it
  (`AutoBlock`);
- the **managed region** of generated files and the patch of the agent configuration built on it
  (`ManagedRegion`, `ManagedFile`, `PromptMerge`, `AgentConfig` on values, `ConfigTree` in place,
  `StackPatch` for a stack profile);
- the **job queue** over whole histories of operations and over interleaved calls (`Queue`,
  `QueueHistory`, `QueueCalls`);
- **architecture recommendation**: giving up hard constraints, ranking, truncation (`Sorting`,
  `Relaxation`, `Recommend`, `RecommendLoops`);
- the **concurrent guards** of status transitions and of the pipeline runner (`Transition`,
  `PipelineRunner`);
- **artifact file names**, printed and parsed (`Filename`).

Code that the repository writes as loops over mutable state is written as methods and classes here,
each proved against a function of its inputs or its old state; the theorems are lemmas about those
functions. Concurrent code is a state machine whose steps are what one goroutine does between two
points where another may come in; `Possible` and `After` (`Executions`) describe its executions, or `Run`
where the step is a relation (`QueueCalls`).
`StartRun` and `applyTransition`, which are also written out for one call at a time, are shown to be such
executions.

What a function stands for is stated apart from its name, too: the lemmas whose names end in Is, Are or
Means, and those of `StackPatch`, describe inputs and outputs by their characters, numbers and positions.

What the proofs brought out where the code and its comments differ:

- `ApplyAnswers` says that identical inputs applied twice give identical bytes. That fails when an
  answer is cleared below a question whose text ends in a quote (`MarkdownLaws.NotAlwaysIdempotent`);
  `AnswerLens.Idempotent` and `AnswerLens.PutGet` give the exact conditions.
- Agent runs hold their lineage lock without ever beating it, so a run longer than the reaper's five
  minutes loses it while its process is at work; a second run takes the lineage beside it, and the first
  one's status write then happens without the lock and its release frees the second one's row
  (`AgentRuns.ReaperBreaksExclusion`). Every run keeps its row in every state of an execution if and only
  if no user and no reaper freed a lock that a run held (`AgentRuns.ExclusionIff`).
- Completing a section reports success, and changes nothing, when the section has no list items to the
  parser: below a heading with only prose or `*` bullets `HasOpenQuestions` stays true
  (`MarkdownLaws.StarBulletStaysOpen`, internal/artifact/questions.go:193-196). With one heading,
  completing leaves nothing open exactly when there were list items or nothing was open before
  (`MarkdownLaws.Completing`).
- Merging a command block into a prompt that has a start marker but no later end marker is not
  idempotent: the second merge cuts out what the first appended (`PromptMerge.OpenMarkerMergesTwice`; the
  exact condition is `PromptMerge.MergeBlockTwice`).
- A file without an index whose slug ends like an indexed name, `login-3` for example, is read back as
  indexed (`Filename.LoginThree`; the exact condition is `Filename.PrintParse`).

- Cancelling a job looks its state up and updates it in two statements, and enqueueing reads the largest
  position and inserts in two. A job dequeued in between is marked as cancelled while it runs, and two
  enqueues can share a position (`QueueCalls.RunningJobIsCancelled`, `QueueCalls.EnqueuesShareAPosition`).
  Interleaved calls come to a history of whole operations if and only if every insert finds the largest
  position as it was read and every update finds the job pending or already cancelled
  (`QueueCalls.HistoryIff`); duplicate suppression and finality hold in every interleaving.
- A job that hit a rate limit is ended and then put back without a duplicate check. An enqueue for the same
  path in between makes two active jobs (`QueueHistory.RequeueRace`); without one the rule is kept
  (`QueueHistory.RequeueIsDisciplined`).

## Model

| member | source | states |
|---|---|---|
| `AgentRuns.SlotsAccounted` | internal/agent/agent.go:601-606 | in every interleaving the semaphore's tokens are exactly the runs between send and receive and never exceed its capacity, and every run about to receive finds a token |
| `AgentRuns.EveryExitBalances` | internal/agent/agent.go:656-741 | on each of the failure exits of StartRun and on both ends of supervise an admitted run gives back its one slot exactly once; the supervisor's missing-process return and its not-active case are unreachable |
| `AgentRuns.Quiescence` | internal/agent/agent.go:925-934 | when all runs have ended no token is in use and the registry is empty |
| `AgentRuns.NobodyIsStuck` | internal/agent/agent.go:553-1262 | in every reachable state a run that has not ended can take a step without waiting for another run, and each step of its own brings it nearer to its end |
| `AgentRuns.FewSteps` | internal/agent/agent.go:553-1262 | in every execution, however it interleaves, a run takes at most 16 steps of its own |
| `AgentRuns.RefusedRunsEnd` | internal/agent/agent.go:589-606 | a run ends at the lock check exactly when the lock cannot be read or is taken, and at the semaphore exactly when it is full, and then holds nothing |
| `AgentRuns.LogMeans` | internal/agent/agent.go:679-694 | which steps write a status or commit, and that each such write is recorded with whether the row named the run |
| `AgentRuns.LineageExclusive` | internal/agent/agent.go:988-1094 | while only the owner frees a run's lock, at most one run per lineage is between acquire and release, the lock row names it, and every status write and commit of a run, those after its slot was returned included, happens under that row |
| `AgentRuns.RowsHeldIff` | internal/lock/lock.go:57-68 | one action leaves every run between acquire and release its row, if and only if it is no release by a user and no reaping of a lock that a run holds |
| `AgentRuns.ExclusionIff` | internal/agent/agent.go:655-741 | every run between acquire and release has its row in every state of an execution, if and only if no action of the execution was such a release or reaping |
| `AgentRuns.ReaperBreaksExclusion` | internal/lock/lock.go:133-148 | a concrete execution in which the reaper frees the lock of a run whose process is at work, a second run takes the lineage beside it, and the first run, when it ends, writes without the lock and frees the second one's row |
| `Locks.LockManager.Acquire` | internal/lock/lock.go:36-54 | a free lineage is taken, a taken one is refused unchanged, and a row inserted but not read back is an error that leaves the row |
| `Locks.LockManager.Release` | internal/lock/lock.go:57-68 | the lineage's row goes, whoever holds it |
| `Locks.LockManager.Heartbeat` | internal/lock/lock.go:71-73 | an existing row's time is renewed, nothing else changes |
| `Locks.LockManager.Reap` | internal/lock/lock.go:133-148 | exactly the rows without a heartbeat for 300 seconds go |
| `Locks.ReapedIff` | internal/index/index.go:1711-1735 | a lock survives the reaper if and only if it was beaten less than 300 seconds ago, and then unchanged |
| `Locks.AcquireMeans` | internal/lock/lock.go:36-54 | taking a lock adds its row exactly when the lineage was free and the insert did not fail, succeeds exactly when it was also read back, is refused as locked exactly when the row was there, and touches no other row |
| `Locks.ReleaseMeans` | internal/lock/lock.go:57-68 | only the lineage's row goes, and none when the database fails |
| `Locks.BeatMeans` | internal/lock/lock.go:71-73 | a heartbeat changes no holder and no time but its lineage's |
| `AgentManager.Manager.constructor` | internal/agent/agent.go:451-465 | the semaphore's capacity, 4 when none is configured |
| `AgentManager.Manager.StartRun` | internal/agent/agent.go:587-746 | which refusal is returned for which outside answers, that a refused start leaves semaphore, registry and locks as they were unless the database fails on the lock, and what a started run holds |
| `AgentManager.Manager.Conclude` | internal/agent/agent.go:925-1117 | the epilogue returns slot, registration and lock and records the final status |
| `AgentManager.Manager.KillAndFail` | internal/agent/agent.go:1213-1262 | a run that failed the precheck returns all it holds and is recorded as failed |
| `AgentManager.Manager.WholeRun` | internal/agent/agent.go:553-1262 | start and end together leave semaphore, registry and locks as they were |
| `AgentManager.StartIsExecution` | internal/agent/agent.go:587-746 | StartRun is one of the executions of the protocol: from any state, steps of the new run alone reach the result, slot, registration and lock that StartRun promises |
| `AgentManager.EndIsExecution` | internal/agent/agent.go:923-1262 | both ends of a supervised run are executions of the protocol, too: they give back what Conclude and KillAndFail say, and a run that failed its precheck writes nothing |
| `AgentManager.RefusalMeans` | internal/agent/agent.go:588-741 | each refusal of StartRun with the exact outside answers that lead to it, the earlier obstacles excluded |
| `AgentManager.LeaksMean` | internal/agent/agent.go:656-741 | a refused start leaves a lock only where the database fails to read it back or to delete it |
| `AgentManager.RecordsMean` | internal/agent/agent.go:661-741 | a refused run that had a record is written down as failed, one without leaves the records alone |
| `Supervision.Supervisor.Forward` | internal/agent/agent.go:805-865 | what one event makes the supervisor send and remember |
| `Supervision.Supervisor.RunPrecheck` | internal/agent/precheck.go:57-129 | the verdict, the observed mode and how much of the stream was read, for every point at which the timer may fire; all that was read was forwarded |
| `Supervision.Supervisor.AwaitInit` | internal/agent/precheck.go:75-128 | the select loop stops at the first init event, at the timer or at the end of the stream, whichever comes first |
| `Supervision.Supervisor.Drain` | internal/agent/agent.go:916-918 | every remaining event is forwarded in order |
| `Supervision.Supervisor.Decide` | internal/agent/agent.go:937-986 | the verdict on a run: done exactly when fewer than two authentication errors occurred, a result was seen if the driver emits them, and the exit was clean or nobody killed the run and the last result was a success; a run no longer registered counts as one that nobody killed |
| `Supervision.Supervisor.Supervise` | internal/agent/agent.go:775-986 | for every stream and timer: the final status and reason, and that what was sent is what the stream calls for, or after a failed precheck the part of it that was read: the events themselves, the quota broadcasts, the pauses, and at most one authentication signal; the process is killed once for that signal and once for a failed precheck |
| `Supervision.PlainPrecheck` | internal/agent/precheck.go:107-127 | a claude-code-cli run passes in any mode, or, where bypassing is required, exactly without a mode or in bypassPermissions; one event after another is read up to the first init event |
| `Supervision.MediatedPrecheck` | internal/agent/precheck.go:137-197 | a claude-mediated run passes in every mode but bypassPermissions |
| `Supervision.OthersHaveNoPrecheck` | internal/agent/agent.go:867-902 | no other driver has a precheck |
| `Supervision.NoInitInTime` | internal/agent/precheck.go:75-93 | without an init event the precheck fails when the timer fires and passes when the stream ends first |
| `Supervision.PrecheckReasons` | internal/agent/agent.go:1221-1240 | the reason recorded for each refusal |
| `Supervision.AllForwarded` | internal/agent/agent.go:805-806 | every event goes out exactly once and in order |
| `Supervision.QuotasWatched` | internal/agent/agent.go:831-839 | the quota broadcasts are the stream's quota reports without consecutive repeats |
| `Streams.ChangesHasNoRepeats` | internal/agent/agent.go:831-837 | dropping consecutive repeats leaves no two equal neighbours and keeps both ends |
| `Supervision.PausesWatched` | internal/agent/agent.go:809-825 | each pause carries the reset time of the latest quota report before it |
| `Supervision.PauseMeans` | internal/agent/agent.go:809-825 | a rate limit asks for one pause with its text and the reset time of the last quota report before it, if there is one and it names a time |
| `Supervision.QuotasAre` | internal/agent/agent.go:831-839 | the quota reports are those of the events, one after the other |
| `Supervision.AuthWatched` | internal/agent/agent.go:844-856 | the authentication signal and the kill happen once if at least two such errors occur, otherwise never |
| `Supervision.ResultsWatched` | internal/agent/agent.go:859-862 | the result flags say whether there was a result event and whether the last one was a success |
| `Supervision.DecisionMeans` | internal/agent/agent.go:937-986 | the chain of corrections the code makes to the exit status comes to that verdict, reasons included |
| `Supervision.DoneMeans` | internal/agent/agent.go:937-986 | a run is done exactly when at most one event reports an authentication error, there is a result event or the driver is none of the three that end in one, and the exit was clean or nobody stopped the run and the last result event is a success |
| `Supervision.NotDoneMeans` | internal/agent/agent.go:937-950 | any other run is killed or timed out exactly when it was stopped so and did not exit cleanly, and failed otherwise |
| `Supervision.AuthIsTheReason` | internal/agent/agent.go:968-971 | among runs that ended well, exactly those with two authentication errors give that as the reason |
| `Supervision.CutIsTheReason` | internal/agent/agent.go:973-986 | with fewer errors, exactly those without a result event, of a driver that ends in one, count as cut |
| `Supervision.WholeStream` | internal/agent/agent.go:872-918 | what precheck and drain see and send together is what the whole stream calls for |
| `RingBuffer.RingBuf.Write` | internal/agent/agent.go:133-141 | the buffer holds the last bytes, up to its capacity, of everything ever written |
| `RingBuffer.LastIs` | internal/agent/agent.go:133-141 | the tail kept is the end of what was written, as long as it is or as the buffer is, whichever is shorter |
| `Policy.MatchGlob` | internal/agent/policy.go:215-237 | the backtracking matcher decides whether the string is the pattern with something in place of each star |
| `Policy.StarMatchesAll` | internal/agent/policy.go:217-221 | a lone star matches every string |
| `Policy.StarFreeMatchesItself` | internal/agent/policy.go:230-236 | a pattern without stars matches itself only |
| `Policy.ConcatMatchesSplit` | internal/agent/policy.go:212-214 | two patterns in a row match exactly the strings that split into a match of each |
| `Policy.EvaluateBash` | internal/agent/policy.go:149-183 | a command is permitted if and only if no deny pattern matches and the allowlist is empty or one of its patterns matches; a denial names the first deny pattern that matches |
| `Policy.DenyingMore` | internal/agent/policy.go:152-160 | more deny patterns forbid exactly what they match and permit nothing |
| `Policy.AllowingMore` | internal/agent/policy.go:163-178 | more allow patterns permit more, except that the first ones on an empty list restrict |
| `OpenQuestions.EntryOfIsEntry` | internal/artifact/questions.go:99-125 | an entry always keeps its marker line and ends in a line of text |
| `OpenQuestions.EntriesAreEntries` | internal/artifact/questions.go:154-158 | every entry has a first text line, so taking its marker off cannot fail |
| `OpenQuestions.EntryShape` | internal/artifact/questions.go:99-125 | every chunk is its text, blank lines, the last run of quote lines and blank lines, and the answer is that run unquoted, joined and trimmed |
| `Cutting.GroupsAreAll` | internal/artifact/questions.go:83-98 | cutting a section into entries loses no line |
| `Markdown.MarkdownSound` | internal/artifact/questions.go:23-45 | headings, items, blank lines and quotes as the program reads them exclude each other as the laws need, and what is written as an answer line is read as one and gives the answer back |
| `Markdown.MarkedIsItem` | internal/artifact/questions.go:41-45 | a dash, or digits and a dot, then white space, make a list item whose text is what follows |
| `Markdown.ItemIsMarked` | internal/artifact/questions.go:41-45 | and nothing else is one |
| `Markdown.QuoteIs` | internal/artifact/questions.go:114-117 | a quote is blanks and a >; its line of the answer is what follows, without one blank in front |
| `Markdown.SectionEndIs` | internal/artifact/questions.go:69-73 | a line ends the section exactly when it starts with two hashes and a blank |
| `Markdown.HeadingWritten` | internal/artifact/questions.go:33-39 | the heading is found in any case and with any white space around it |
| `Markdown.PlaceholderIsNone` | internal/artifact/artifact.go:318-363 | each of the seven placeholders, in any case, behind list marks and between decorations, is no real question |
| `AnswerLens.PutGet` | internal/artifact/questions.go:140-243 | parsing the answered body gives the same questions in order with their final trimmed answers, if and only if there are questions and every entry gets an answer or its text does not end in a quote |
| `AnswerLens.AnswersCarried` | internal/artifact/questions.go:198-206 | question i of the answered body carries the answer given for it, trimmed, or the one it had when none was given, for each question on its own |
| `AnswerLens.AnswerIsWritten` | internal/artifact/questions.go:217-242 | answering a question puts a blank line and the quoted answer in the place of the old one, completing renames the heading, and no other byte changes |
| `AnswerLens.WrittenQuestionParses` | internal/artifact/questions.go:140-167 | a question written by hand, with further lines and an answer of several lines, is read as it was meant |
| `AnswerLens.Idempotent` | internal/artifact/questions.go:183-243 | answering the same twice gives the same bytes, if and only if every entry gets an answer, or its text does not end in a quote, or its text ends in a blank line and the quoted lines of a trimmed answer and none was given for it |
| `AnswerLens.WrittenAsReadIff` | internal/artifact/questions.go:99-125 | among texts that end in a quote, exactly those that end as an answer is written are written again as they were read |
| `AnswerLens.ClearingTwiceDiffers` | internal/artifact/questions.go:183-183 | in any body and beside any other answers: for every question text that ends in a quote, clearing the answer below it loses the quote, and clearing again changes the bytes |
| `AnswerLens.AroundUntouched` | internal/artifact/questions.go:235-240 | all lines above the heading and from the next second-level heading on stay as they were |
| `AnswerLens.Completed` | internal/artifact/questions.go:187-242 | completing succeeds if and only if every question is answered; after it no open-questions heading is left, if and only if there was none or it had questions and none was among the lines kept; without questions nothing changes |
| `AnswerLens.CompletedReadsBack` | internal/artifact/questions.go:217-242 | whenever questions are completed, the section under the resolved heading is read as the same questions in order with their final trimmed answers, texts that end in a quote included |
| `AnswerLens.CompletionResolves` | internal/artifact/questions.go:187-242 | with one heading, a completed body has nothing to parse or to answer, and nothing open exactly when there were questions or nothing was open before |
| `AnswerLens.ProseStaysOpen` | internal/artifact/questions.go:193-196 | below a heading without list items a real line stays open although completing succeeds, and the body stays as it was |
| `AnswerLens.OpenMeans` | internal/artifact/artifact.go:334-354 | a body has open questions exactly when a line between its first heading and the next second-level heading is a real question |
| `AnswerLens.NoHeadingNoQuestions` | internal/artifact/questions.go:187-190 | a body without the heading has no open questions and is returned as it is |
| `MarkdownLaws.Answering` | internal/artifact/questions.go:184-243 | put-get and idempotence with their conditions for the program's own line grammar |
| `MarkdownLaws.Carrying` | internal/artifact/questions.go:198-206 | a given answer replaces the one a question had, and without one that stays, for the program's own line grammar |
| `MarkdownLaws.WrittenQuestionIsRead` | internal/artifact/questions.go:140-167 | a dash or a number, a text and a quote below are read as that question and that answer |
| `MarkdownLaws.HeadingsAre` | internal/artifact/questions.go:22-26 | the two headings the program writes |
| `MarkdownLaws.Completing` | internal/artifact/artifact.go:334-354 | for a body with one heading: completing succeeds if and only if all its questions are answered, and HasOpenQuestions is false afterwards if and only if there were questions or it was false before |
| `MarkdownLaws.StarBulletStaysOpen` | internal/artifact/questions.go:193-196 | a body whose only question is a star bullet is completed without an error, unchanged, and HasOpenQuestions stays true |
| `MarkdownLaws.CompletingLeavesOpen` | internal/artifact/questions.go:193-196 | such a body: the heading and the line `* x` |
| `MarkdownLaws.NotAlwaysIdempotent` | internal/artifact/questions.go:183-183 | a concrete body on which applying the same answers twice gives other bytes |
| `QuestionLoops.LocateOpenQuestionsSection` | internal/artifact/questions.go:57-75 | the first heading and the first second-level heading behind it |
| `QuestionLoops.SplitQuestionEntries` | internal/artifact/questions.go:82-129 | the section's entries: texts and answers of the groups of lines that start at items |
| `QuestionLoops.ParseOpenQuestions` | internal/artifact/questions.go:140-166 | the parser computes the questions of the section, none when there is no section or item |
| `QuestionLoops.ApplyAnswers` | internal/artifact/questions.go:184-243 | the writer computes the rewritten body or the incomplete-answers error |
| `QuestionLoops.FinalAnswers` | internal/artifact/questions.go:198-206 | given answers replace existing ones in whatever order the map is walked, others stay, foreign indexes are ignored |
| `QuestionLoops.DetectOpenQuestions` | internal/artifact/artifact.go:334-354 | the one-pass detector finds a line of the section that is neither blank nor a placeholder |
| `AutoBlock.Document.ApplyOpenQuestionTransition` | internal/index/autoblock.go:33-43 | status, assignees and file after one automatic transition; the file is rewritten exactly when the status changed |
| `AutoBlock.Document.AutoBlock` | internal/index/autoblock.go:45-76 | a permitted block sets the status and adds the product owner once; a refused one changes nothing |
| `AutoBlock.Document.AutoUnblock` | internal/index/autoblock.go:111-126 | a permitted unblock sets the status to draft and nothing else |
| `AutoBlock.StatusFollowsQuestions` | internal/index/autoblock.go:33-43 | after one transition the artifact is blocked if and only if it has open questions, exactly when that held before or the workflow permits the step |
| `AutoBlock.TransitionOnce` | internal/index/autoblock.go:42-42 | a second transition changes nothing |
| `AutoBlock.OthersKept` | internal/index/autoblock.go:55-72 | no other frontmatter changes, and the owner is added at most once |
| `AutoBlock.TransitionMeans` | internal/index/autoblock.go:33-126 | an artifact that asks becomes blocked and has the owner, a blocked one that does not becomes a draft, each only if permitted, and every other one stays as it is |
| `AutoBlock.OwnerIsAdded` | internal/index/autoblock.go:55-72 | the owner stands behind the other assignees, added only if missing |
| `AutoBlock.MarshalLooks` | internal/index/autoblock.go:183-199 | the file is the frontmatter between two fences, a blank line, the trimmed body and a line break |
| `AutoBlock.MarshalStrips` | internal/artifact/artifact.go:505-516 | stripping the frontmatter of a written file gives the trimmed body, if and only if no later line of the frontmatter starts like a fence |
| `AutoBlock.RereadIff` | internal/index/autoblock.go:162-199 | a written artifact is read back with its frontmatter and its trimmed body, if and only if no later line of the encoded frontmatter starts like a fence |
| `AutoBlock.RewriteSettles` | internal/index/autoblock.go:162-199 | an artifact parsed from a file, rewritten by a transition and read back, frontmatter and body, does not transition again, if no later line of the encoded frontmatter starts like a fence |
| `ManagedRegion.EndFollowsStart` | internal/directives/write.go:46-51 | once both markers were found in order, the search behind the start marker cannot fail: the second fallback is dead |
| `ManagedRegion.MergePutsRegion` | internal/directives/write.go:41-72 | everything up to the start marker and from the end marker on is kept, and the region read back is the fresh one |
| `ManagedRegion.GetPut` | internal/directives/write.go:66-71 | merging changes nothing if and only if the region is the same |
| `ManagedRegion.MergeTwice` | internal/directives/write.go:34-72 | merging twice is merging once |
| `ManagedRegion.LastMergeWins` | internal/directives/write.go:34-72 | an earlier merge leaves no trace, if and only if the file had markers or the two bodies agree around their regions |
| `ManagedRegion.MergeFails` | internal/directives/write.go:53-62 | the merge fails if and only if there is a region to replace and the fresh body has none |
| `ManagedRegion.SameParts` | internal/directives/write.go:66-69 | a file with markers is determined by what stands before, in and behind its region |
| `ManagedRegion.ShippedMarkersApart` | internal/directives/render.go:19-22 | the shipped markers cannot overlap each other or themselves |
| `ManagedRegion.ShippedMarkersAre` | internal/directives/render.go:20-21 | the two strings themselves |
| `ManagedFile.File.Write` | internal/directives/write.go:82-112 | what is reported and what is on disk after a write, for missing, unmarked, marked and identical files |
| `ManagedFile.MissingIsCreated` | internal/directives/write.go:84-89 | a missing file is created with the body |
| `ManagedFile.SameIsSkipped` | internal/directives/write.go:94-100 | a file that would not change is skipped |
| `ManagedFile.ProseIsForced` | internal/directives/write.go:102-111 | a file without a region is replaced only when forced |
| `ManagedFile.RegionIsRefreshed` | internal/directives/write.go:94-111 | a region is refreshed, forced or not, between what stands around it |
| `ManagedFile.BodyWithoutRegion` | internal/directives/write.go:94-97 | a body without a region is an error for a file with one |
| `ManagedFile.UnforcedKeepsProse` | internal/directives/write.go:101-105 | without force an existing file changes only inside its region |
| `ManagedFile.WriteAgain` | internal/directives/write.go:97-99 | a write that went through is skipped when repeated; a withheld one stays withheld until forced |
| `PromptMerge.RenderedIsBlock` | internal/directives/config_patch.go:280-292 | a rendered clause starts with the start marker and has a region, whatever the clause holds |
| `PromptMerge.RenderedReads` | internal/directives/config_patch.go:280-292 | the region of a rendered clause is the clause and, if there are any, the commands behind a blank line |
| `PromptMerge.MergeBlockTwice` | internal/directives/config_patch.go:298-308 | merging a block twice is merging it once, if and only if the prompt has a region or no start marker |
| `PromptMerge.OpenMarkerMergesTwice` | internal/directives/config_patch.go:298-308 | into a prompt that is just the shipped start marker a second merge gives another prompt than the first |
| `PromptMerge.MergeKeepsProse` | internal/directives/config_patch.go:294-308 | around a region everything is kept; without one the prompt stays but for its trailing line breaks |
| `AgentConfig.EditKeepsKeys` | internal/directives/config_patch.go:116-126 | editing an agent changes no key but enabled, allowed_write_paths and prompt_templates |
| `AgentConfig.EditTwice` | internal/directives/config_patch.go:116-126 | editing an agent twice is editing it once, if and only if it is disabled or has no second enabled key, and its prompts settle |
| `AgentConfig.PatchAgentTwice` | internal/directives/config_patch.go:98-127 | patching one entry of the agents list twice is patching it once, under those conditions if it is a standard agent and always if not |
| `AgentConfig.PatchTwice` | internal/directives/config_patch.go:84-127 | patching the document twice is patching it once, if and only if every standard agent meets its condition |
| `AgentConfig.OthersUntouched` | internal/directives/config_patch.go:98-110 | other top-level keys and agents outside the six stay as they were, and agents keep their places |
| `AgentConfig.PatchKeepsProse` | internal/directives/config_patch.go:261-274 | every prompt of a patched agent stays under its key with its hand-written text |
| `AgentConfig.PatchSetsPaths` | internal/directives/config_patch.go:119-120 | a patched agent's write paths are exactly those of its role and name |
| `AgentConfig.DisabledGets` | internal/directives/config_patch.go:206-223 | disabling leaves enabled saying false; enabling leaves no enabled key unless it stood there twice |
| `AgentConfig.DedupHas` | internal/directives/config_patch.go:243-256 | each non-empty item stays exactly once |
| `AgentConfig.DedupOrder` | internal/directives/config_patch.go:243-256 | items keep the order of their first occurrence |
| `AgentConfig.StackPatchTwice` | internal/directives/config_patch.go:98-127 | the same for the plan made from a stack profile, whatever the architecture clauses and commands say |
| `AgentConfig.StackPlanRenders` | internal/directives/config_patch.go:122-126 | the block merged for every role has both markers |
| `StackPatch.StackDisables` | internal/directives/config_patch.go:112-117 | a standard agent says enabled: false afterwards exactly when its role is in the stack and not required; otherwise the key is gone unless it stood there twice |
| `StackPatch.StackReports` | internal/directives/config_patch.go:112-128 | the names reported are exactly those of the standard agents in the list whose role the stack does without |
| `StackPatch.ReportIsSorted` | internal/directives/config_patch.go:128-128 | in the order of the names |
| `StackPatch.StackWrites` | internal/directives/config_patch.go:119-120 | a standard agent may write to the paths of its role in the stack and then its lifecycle directories, each once, where it is listed first, as plain strings |
| `StackPatch.LifecycleIs` | internal/directives/config_patch.go:38-45 | which lifecycle directories each of the six agents has |
| `StackPatch.StackPrompts` | internal/directives/config_patch.go:122-126 | every prompt is merged with the clause of the agent's role and the commands the stack has for it |
| `StackPatch.OthersLeftAlone` | internal/directives/config_patch.go:98-110 | every other node of the list is left as it is |
| `ConfigTree.FindKey` | internal/directives/config_patch.go:181-191 | the first pair of a mapping with the key |
| `ConfigTree.RemovePair` | internal/directives/config_patch.go:194-201 | in place: one pair goes, the others keep their order |
| `ConfigTree.SetDisabledIn` | internal/directives/config_patch.go:206-223 | in place: the tree of the agent becomes what SetDisabled makes of its value |
| `ConfigTree.SetStringSequenceIn` | internal/directives/config_patch.go:227-241 | in place: an existing value node becomes a sequence of strings, a missing key is appended |
| `ConfigTree.PatchPromptsIn` | internal/directives/config_patch.go:261-274 | in place: the value of every prompt is merged, and nothing else of the agent's tree changes |
| `ConfigTree.Dedup` | internal/directives/config_patch.go:245-256 | the loop over a seen-map keeps each non-empty item once, in order |
| `ConfigTree.PatchAgentIn` | internal/directives/config_patch.go:98-127 | in place: one entry of the agents list is patched if it is a standard agent, and its name is reported if it is disabled |
| `ConfigTree.PatchAgentsIn` | internal/directives/config_patch.go:97-128 | in place: every entry of the list is patched where it stands; the names of the disabled agents come out sorted |
| `ConfigTree.PatchDocumentIn` | internal/directives/config_patch.go:84-128 | in place: the whole document, with the cases of no mapping and no agents list |
| `Queue.Store.Enqueue` | internal/queue/store.go:84-132 | a job is inserted if and only if none is active for its project and path and its id is free, behind all others unless it names a position; a duplicate is reported before a taken id |
| `Queue.Store.EnqueueDirect` | internal/queue/store.go:138-159 | a job is inserted at its position without a duplicate check |
| `Queue.Store.MinPosition` | internal/queue/store.go:163-170 | the least position of all jobs, 0 for none |
| `Queue.Store.Dequeue` | internal/queue/store.go:174-207 | a pending job with no pending job before it becomes running; none exactly when none is pending |
| `Queue.Store.MarkTerminal` | internal/queue/store.go:210-225 | an existing job takes the terminal state; other states and unknown jobs are errors |
| `Queue.Store.Cancel` | internal/queue/store.go:305-320 | exactly pending jobs are cancelled, and a running one is refused as such |
| `Queue.Store.RecoverOrphans` | internal/queue/store.go:325-333 | exactly the running jobs become pending with one more attempt |
| `Queue.EnqueueMeans` | internal/queue/store.go:84-132 | an enqueue changes nothing exactly when the id is taken or a job is active for the path, and otherwise adds one pending row with what was handed in, at its position or one behind the last |
| `Queue.DirectMeans` | internal/queue/store.go:138-159 | a direct enqueue adds such a row at its position unless the id is taken |
| `Queue.DequeueMeans` | internal/queue/store.go:174-207 | the pending job with the least position becomes running and nothing else changes |
| `Queue.MarkMeans` | internal/queue/store.go:210-225 | a terminal state and its reason are written whatever the job was doing |
| `Queue.CancelMeans` | internal/queue/store.go:305-320 | a pending job is cancelled with the reason cancelled_by_user |
| `Queue.RecoverMeans` | internal/queue/store.go:325-333 | a running job is pending again with one more attempt, every other one is as it was |
| `QueueHistory.OneActiveAlways` | internal/queue/store.go:107-131 | over every history in which EnqueueDirect is used only without an active job, at most one job is active per project and path |
| `QueueHistory.DirectNeedsDiscipline` | internal/queue/store.go:136-138 | that use of EnqueueDirect is exactly what keeps the rule |
| `QueueHistory.RequeueIsDisciplined` | internal/queue/dispatcher.go:459-477 | ending an active job and putting one back for its path keeps the rule when nothing comes in between |
| `QueueHistory.RequeueRace` | internal/queue/dispatcher.go:459-477 | an enqueue for the same path in between leaves two active jobs |
| `QueueHistory.TerminalIsFinal` | internal/queue/store.go:210-225 | a terminal job is never pending or running again |
| `QueueHistory.AttemptsCounted` | internal/queue/store.go:322-333 | a job's attempts grow by exactly the recoveries that caught it running |
| `QueueHistory.EnqueueOrder` | internal/queue/store.go:95-107 | positions strictly follow the order of enqueueing |
| `QueueHistory.DequeueOrder` | internal/queue/store.go:180-207 | without a recovery in between, later dequeues have strictly greater positions |
| `QueueHistory.OlderFirst` | internal/queue/store.go:322-333 | while an older job is pending, a recovered one for example, no later one is dequeued |
| `QueueHistory.InFrontIsNext` | internal/queue/store.go:161-170 | in every history a job placed below the least position is the next one dequeued, whatever is enqueued behind it, cancelled, ended or recovered in the meantime |
| `QueueHistory.RecoveryIsExact` | internal/queue/store.go:325-333 | after recovery nothing is running, what was active is pending, and all else is as it was |
| `QueueCalls.HistoryIff` | internal/queue/store.go:84-132 | interleaved calls come to a history of whole operations in the order in which they complete, if and only if every insert finds the largest position as it was read and every cancelling update finds the job pending or already cancelled by a user |
| `QueueCalls.MoveIsStep` | internal/queue/store.go:305-320 | one statement does what the whole operation does alone, exactly under that condition |
| `QueueCalls.OneActiveInEveryRun` | internal/queue/store.go:107-131 | in every interleaving at most one job is active per project and path, as long as EnqueueDirect is used only without an active job |
| `QueueCalls.TerminalStays` | internal/queue/store.go:210-225 | in every interleaving a terminal job is never pending or running again |
| `QueueCalls.NothingInsertedBetween` | internal/queue/store.go:95-107 | an enqueue is placed behind all others when no row was inserted since it read the largest position |
| `QueueCalls.RunningJobIsCancelled` | internal/queue/store.go:305-320 | a concrete run in which a job dequeued during its cancellation is marked as cancelled while it runs, and the cancellation reports success |
| `QueueCalls.EnqueuesShareAPosition` | internal/queue/store.go:95-122 | a concrete run in which two enqueues get the same position |
| `Relaxation.FilterByHardConstraints` | internal/architecture/recommend.go:132-153 | the greedy loop ends with the shortest sufficient prefix of the labels ranked by match count and name, and with the items that match the rest |
| `Relaxation.DropsWeakest` | internal/architecture/recommend.go:127-153 | dropped and kept labels are together the input's, each dropped one weaker than each kept one, and dropping fewer leaves nothing |
| `Relaxation.DropsFewest` | internal/architecture/recommend.go:127-150 | a label given up is carried by fewer items of the catalog than one kept, or by as many and comes first by name |
| `Relaxation.DroppedInOrder` | internal/architecture/recommend.go:149-150 | the labels are reported in that order, too |
| `Relaxation.SurvivorsInOrder` | internal/architecture/recommend.go:156-178 | the items that match stand in catalog order |
| `Relaxation.SurvivorsExist` | internal/architecture/recommend.go:127-140 | survivors are exactly the items that carry every kept label, and there are some unless the catalog is empty |
| `Relaxation.LabelOrderIrrelevant` | internal/architecture/recommend.go:132-153 | dropped labels and survivors do not depend on the order of the hard labels |
| `Relaxation.MatchAll` | internal/architecture/recommend.go:156-178 | the items that carry every label, in catalog order |
| `Relaxation.MatchCount` | internal/architecture/recommend.go:180-191 | how many items carry the label, repeated labels counted once |
| `Recommend.DedupAscends` | internal/architecture/recommend.go:112-125 | one contribution per label, by label name, none lost |
| `Recommend.DedupIsDistinct` | internal/architecture/recommend.go:112-125 | the labels handed to the filter are distinct |
| `Recommend.AnswerCounts` | internal/architecture/recommend.go:46-67 | every label of the option an answer picks counts, with its reason, as a hard constraint exactly if the question or the option says so, unless the question is about the language |
| `Recommend.OnlyAnswersCount` | internal/architecture/recommend.go:46-67 | and nothing else counts |
| `Recommend.DedupKeepsFirst` | internal/architecture/recommend.go:112-119 | of the contributions for a label the first is kept |
| `Recommend.HardAnswersRespected` | internal/architecture/recommend.go:69-70 | everything recommended is in the catalog and carries every hard label of the answers that was not given up |
| `RecommendLoops.DedupContributions` | internal/architecture/recommend.go:112-125 | listing the map in any order and sorting gives that one list, with the first reason for each label |
| `RecommendLoops.CollectAnswers` | internal/architecture/recommend.go:46-67 | hard and soft contributions of the answers, language questions and unknown answers left out |
| `RecommendLoops.ScoreSurvivors` | internal/architecture/recommend.go:197-227 | every survivor with its score and reasons, stably sorted by score and slug |
| `Recommend.RankedOrder` | internal/architecture/recommend.go:220-226 | the best score comes first, then the smaller slug |
| `Recommend.RankedIsStable` | internal/architecture/recommend.go:220-226 | candidates with one score and slug stay in catalog order |
| `Recommend.RankedScores` | internal/architecture/recommend.go:211-217 | the score counts the soft labels the candidate carries |
| `Recommend.RankedReasons` | internal/architecture/recommend.go:205-217 | the reasons are those of the hard and soft labels it carries |
| `Recommend.ReasonsInOrder` | internal/architecture/recommend.go:205-217 | those of hard labels first, each group in the order of its labels |
| `Sorting.BelowIff` | internal/architecture/recommend.go:124-124 | strings are ordered at the first character in which they differ |
| `Sorting.SortIsStable` | internal/architecture/recommend.go:220-226 | a sort keeps the order of elements that tie |
| `RecommendLoops.ApplyDefaultBias` | internal/architecture/recommend.go:234-248 | in place: the default and the first candidate change places when nothing scores |
| `Recommend.BiasMovesDefault` | internal/architecture/recommend.go:234-248 | the default is moved only when nothing scores and it is there, and only it and the first change places |
| `RecommendLoops.RecommendArchitectures` | internal/architecture/recommend.go:45-85 | the first three of the ranking, and the dropped labels |
| `Recommend.RankingIsSurvivors` | internal/architecture/recommend.go:69-84 | the ranking lists every survivor once and nothing else, and is empty only if the catalog is |
| `Recommend.NoneBetterOmitted` | internal/architecture/recommend.go:81-83 | a candidate is left out only behind three returned ones, none of which scores less |
| `Recommend.TopThree` | internal/architecture/recommend.go:81-83 | the first three, or all if there are fewer |
| `Recommend.DefaultFirst` | internal/architecture/recommend.go:230-248 | when no survivor scores and the default is one, it comes first with its reason |
| `Recommend.AnswerOrderIrrelevant` | internal/architecture/recommend.go:37-44 | dropped labels and the ranked items with their scores depend only on the set of answers |
| `RecommendLoops.RankStacks` | internal/architecture/recommend.go:254-276 | the stacks related to the choice, those in the language first, both in their old order |
| `Sorting.TwoTiers` | internal/architecture/recommend.go:267-275 | a stable sort into two tiers keeps the order within each |
| `Transition.OneMutexPerPath` | internal/http/transition.go:33-41 | all callers on a path get the same mutex, and one of them at a time is between lock and unlock |
| `Transition.SuccessesChain` | internal/http/transition.go:178-206 | in every interleaving the successful transitions of a path form a chain from its first status to its present one, and no two of them replaced the same version of the file |
| `Transition.NoDeadlock` | internal/http/transition.go:178-180 | a call that has not ended can go on, or another call between lock and unlock can |
| `Transition.Server.TransitionLockFor` | internal/http/transition.go:35-41 | a path keeps its mutex; a new one belongs to no other path |
| `Transition.Server.ApplyTransition` | internal/http/transition.go:182-206 | a transition goes through if and only if the file still has the expected status and a status field, and changes the file exactly then |
| `Transition.TakesMeans` | internal/http/transition.go:182-206 | the guard: the status field is there and reads what the caller saw, an empty one counting as draft |
| `Transition.AppliedMeans` | internal/http/transition.go:190-206 | a transition changes the status of its file and no other file |
| `Transition.ApplyIsExecution` | internal/http/transition.go:178-206 | the call under its mutex is one of the interleaved executions: where the mutex is free, steps of this call alone reach the outcome and the files it promises |
| `Transition.SecondIsRefused` | internal/http/transition.go:187-189 | of two transitions from one status the second is refused unless the first kept the status |
| `PipelineRunner.OneLiveRunPerSlug` | internal/devops/runner.go:101-131 | in every interleaving the two maps are inverse, at most one run per slug is live, and exactly the live runs are registered |
| `PipelineRunner.RemovesItself` | internal/devops/runner.go:122-127 | a finishing run deletes its own entries and no other run's |
| `PipelineRunner.CancelHitsItsRun` | internal/devops/runner.go:136-147 | Cancel never dereferences nil and never signals a run other than the one named |
| `PipelineRunner.CancelledIsGone` | internal/devops/runner.go:146-149 | once Cancel has returned nil its run is not registered, then or later |
| `PipelineRunner.Runner.Start` | internal/devops/runner.go:101-131 | a free slug is registered in both maps, a running one refused unchanged |
| `PipelineRunner.Runner.LookUp` | internal/devops/runner.go:137-144 | the run found for an id is the run of that id |
| `PipelineRunner.ExecuteRun` | internal/devops/runner.go:163-235 | the events of a run: steps up to the first that does not pass, then the overall status |
| `PipelineRunner.StepsReported` | internal/devops/runner.go:185-221 | a step is started and completed, once and in its place among the events, exactly when every step before it passes |
| `PipelineRunner.LastEventIs` | internal/devops/runner.go:217-234 | the run ends with the status of the first step that does not pass, or passes |
| `PipelineRunner.PassedIff` | internal/devops/runner.go:182-221 | a run passes if and only if every step does, and then all were run |
| `Filename.PrintParse` | internal/artifact/artifact.go:396-425 | a printed name is parsed as it was meant, if and only if: with an index, the slug is not empty and has no line break, and the suffix is letters; without one, there is no suffix and the slug does not end like an indexed name |
| `Filename.NumberedSlugReads` | internal/artifact/artifact.go:416-425 | without an index, a slug that ends in a dash and digits is read back as an indexed name |
| `Filename.LoginThree` | internal/artifact/artifact.go:416-425 | `login-3` without an index is read back as `login` with index 3 |
| `Filename.ParsePrint` | internal/http/write.go:809-817 | a parsed stem is printed back as it was, if and only if it has no index or one without a leading zero that fits an int |
| `Filename.IndexedName` | internal/http/write.go:809-817 | an indexed name is slug, dash, number and, if there is one, dash and suffix |
| `Filename.AtoiIs` | internal/artifact/artifact.go:423-424 | numbers too large for an int are read as the largest one |
| `Filename.ValidSlugsReadBack` | internal/http/write.go:796-800 | every name built from a valid slug and an index is read back |
| `Filename.DecimalOfValue` | internal/artifact/artifact.go:423-424 | digits are the decimal form of their value unless they start with a zero |

## Left out

- Process launching, pipes, log files, HTTP drivers and command lines: a driver is an arbitrary finite stream of events and an exit result.
- JSON payloads and the regular expressions that classify events: events arrive classified.
- SQLite, git, the file watcher, goldmark and the YAML library: the job table, the lock table, file contents and the node tree are modelled directly; decoding a frontmatter is taken as the inverse of encoding it, and YAML output as ending in a line break.
- AgentConfig.PatchConfig: is stated on values and carried to nodes edited in place by ConfigTree, for trees in which no node hangs in two places; a mapping with an odd number of nodes, which no parser makes, is not represented, and encoding, validating and writing the file are left out.
- AgentConfig.StackPlan: takes the text of the architecture clause and of the command block as given, so their wording is not modelled.
- AgentRuns.Do: Kill is left out, since it only cancels the context of a running process, which Supervise is given as its ctx; run ids are fresh by assumption, and a step of the registry, the semaphore or the lock table is atomic; the cleanup of the per-run policies and secrets is not modelled, because two failure paths of the source skip it.
- Transition.Do: a write that fails leaves the file as it was, so a partial write is not modelled; another writer than the transitions is not either.
- Queue.Store.Enqueue and Queue.Store.Cancel: run their two statements as one here; `QueueCalls` takes them apart. A statement or a transaction is atomic, since the source opens one connection.
- Queue.Job: times of enqueueing, start and end are left out, and positions are unbounded.
- Supervision.Supervisor.RunPrecheck: the timer is the number of events read before it fires; wall-clock time is not modelled.
- Policy.EvaluateBash: is the Bash branch of Evaluate; the path rules for file-writing tools, a chain of prefix tests, are left out.
- Markdown.EqualFold and Markdown.ToLower: case folding is modelled for the characters whose folding meets ASCII, which are the only ones the fixed texts can meet.
- Filename.ParseFilename: gives the meaning of the regular expression (the longest slug that leaves a tail) and not the matching engine.
- ManagedFile.File.Write: other I/O errors than a missing file, the text of the diff and the temporary file are left out.
- The queue dispatcher, the workflow engine, the index, the sandbox, the scheduler, releases and triage: not modelled; whether a transition is permitted is a parameter.
- HTTP handlers, roles, sessions, the WebSocket hub, the front end, the command line, templates and scaffolding: they pass requests, text and files to the parts modelled here and decide nothing about them.
- rewriteLinks, PatchFrontmatterField on empty values and resolveSlug beyond 99 collisions: their obvious claims need awkward side conditions.
