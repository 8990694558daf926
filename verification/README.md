# Verification of the gwa3 LLM bridge and the native Froggy bot

This project models the coordination logic of the bridge (`bridge/*.py`) and of the native Froggy HM bot
(`bots/`), and proves what that logic is for: prompt histories that a model API accepts, a pipe protocol
that neither loses nor swaps results, bounded buffers that agree with the unbounded record of what
happened, plans that are never installed stale, a supervisor and a plan controller whose debounce loses
no map change, and a native state machine whose run accounting is right over every run.

With Dafny 4.11, `dafny verify dfyconfig.toml` checks the whole project.

## How the model is built

- Objects that change in place (`HistoryManager`, `ActionDispatcher`'s use of a history, `IpcClient`,
  `TokenBudgetGuard`, `BridgeEventBus`, `TwoModelAgentLoop`, `FroggySupervisor`, `PlanController`,
  `ObservationWindow`, `RunHistoryStore`, the failure budget, the native module and its thread) are
  classes whose methods follow the source's control flow. Each method is proved equal to a function of the
  old state, and the properties are lemmas about these functions, or invariants over all runs.
- Interleaving stands where the source suspends: result futures, background replans, and the bot thread
  are step relations, and the lemmas about them hold for every sequence of steps.
- What cannot be seen from inside is a parameter: clock readings (each reading of the source is its own
  argument), the answers of models, tools and game calls, exceptions, and how a byte stream is cut into
  reads.
- Ghost logs keep everything that ever happened, so that a pruned or bounded structure can be compared
  with it.

| file | source | what it is about |
|---|---|---|
| `Messages`, `MessageGroups`, `HistoryTrim`, `PromptViews`, `HistoryManager` | `bridge/history_manager.py` | parsing, filtering, trimming, windowing and compacting a prompt history |
| `RoleHistory` | `bridge/action_dispatcher.py`, `bridge/planner_loop.py`, `bridge/executor_loop.py` | how responses become history, over replans and ticks |
| `IpcFraming`, `ActionResults` | `bridge/ipc_client.py` | framing, and correlating results with requests |
| `TokenBudget`, `EventBus`, `Observation`, `RunHistory`, `FailureBudget` | the files of those names, `bridge/agent_loop.py` | bounded buffers against full logs |
| `Plans`, `Supervisor`, `PlanController`, `PlannerWakeUps`, `AsyncPlanner` | `bridge/plan.py`, `bridge/froggy_supervisor.py`, `bridge/plan_controller.py`, `bridge/two_model_agent_loop.py` | planning |
| `FroggyRuns` | `bots/froggy/FroggyHM.cpp`, `bots/common/DungeonBotStates.cpp`, `bots/common/BotFramework.cpp` | the native state machine |
| `Options`, `Texts`, `Snapshots` | | shared types |

## What turned out not to hold

Each entry names a lemma (or a method that runs the class) with an input or a run that shows it, and the
one that says exactly when the code does what is expected.

- **A replan can leave a half-answered call in the history**, also one that returns normally. A `TypeError`
  or `ValueError` out of a tool of the first answer is caught like invalid planner output and retried; the
  second answer then gives a plan (`RoleHistory.ReplanCanLeaveHalfAnsweredCall`), or does not parse either
  (`RoleHistory.ReplanWithoutPlanCanToo`); exactly, for every outcome: `RoleHistory.ReplanHistoryExactly`. The
  prompt is safe all the same: `RoleHistory.PromptAlwaysSafe`.
- **Distinct ids are more than is needed** for a batch of replies to leave valid groups:
  `RoleHistory.RepeatedIdsCanBeValid`; exactly: `RoleHistory.BatchWellFormedExactly`.
- **Wait compaction can raise**: an index error on a run of wait turns unless `wait_pair_keep` is negative or
  lies between 1 and `wait_compact_min - 1` (`PromptViews.CompactionFails`), and an attribute error on a wait
  reply that is JSON but no object, whatever the numbers are (`PromptViews.StrayReplyRaises`); exactly:
  `PromptViews.CompactionTotalExactly`. On what the dispatcher writes the numbers 4 and 2, which are the
  method's defaults, never raise: `RoleHistory.DispatchedPromptNeverRaises`; but no caller outside the tests
  asks for a compacted prompt.
- **Compacting twice can do more than compacting once**: it raises, or summarises what the first one had
  kept: `PromptViews.SecondCompactionDiffers`; exactly: `PromptViews.CompactionIdempotentExactly`.
- **A closed hour can exceed the token cap by the gap between two clock readings** of one record:
  `TokenBudget.GapCanExceedCap`; exactly: `TokenBudget.ClosedHourExactly`, and for intervals of any length
  `TokenBudget.KeptIntervalsExactly`.
- **A replay longer than a subscriber's queue** (more than 256) makes `subscribe` raise and leaves a queue
  with a hole behind: `EventBus.LongReplayLeavesGap`; exactly: `EventBus.BridgeEventBus.Subscribe`.
- **User messages do not all reach a planner model.** They are dropped when a replan is scheduled while
  another one runs (`AsyncPlanner.MessageIsDropped`), lost with a replan that ends before a call of its model
  got through (`AsyncPlanner.FailedCallLosesMessage`), and cut to the last five
  (`AsyncPlanner.SixthMessageCutsTheFirst`); exactly: `AsyncPlanner.MessagesReachPlannerExactly`. A replan
  that ends stale has shown its messages to a model, but to no effect:
  `AsyncPlanner.StaleReplanUsesUpMessages`.
- **A map change can go without a replan for good.** The controller approves it once and notes the map; if a
  replan is in flight just then, none is started, and the one in flight ends stale:
  `PlannerWakeUps.MapChangeCanBeLost`; exactly: `PlannerWakeUps.MapChangeStartsReplanExactly`.
- **Travel to Sparkfly does not always alternate with town setup**: the decision reads the clock twice.
  `Supervisor.TwoReadingsBreakAlternation`; it does for exactly those readings of which the second is no later
  than the first: `Supervisor.AlternationExactly`.
- **One `null` skillbar in a full snapshot** makes every later snapshot with a skillbar raise:
  `Observation.NullBarRefuses`; exactly: `Observation.RefusesExactly`.
- **Reloading the saved run history drops items again** when `max_items` is negative:
  `RunHistory.NegativeLimitDropsAgain`; exactly: `RunHistory.ReloadExactly`.
- **Summaries of different runs can share a key**, because its texts are joined by bars that they may hold, and
  one is dropped: `RunHistory.KeysCanCollide`; which do: `RunHistory.SameKeyExactly`.
- **Failures outside the gate** are not spaced: `FailureBudget.UngatedFailuresMayCrowd`; exactly:
  `FailureBudget.GateSpansExactly`.
- **A bot set to `AwaitingReturn` after its start** completes a run that never started:
  `FroggyRuns.AwaitingFirstBreaksIt`; set to any other state and left alone it never
  does: `FroggyRuns.CompletionsBoundedExactly`.
- **A state set from outside while a handler runs can be overwritten** at its end:
  `FroggyRuns.OutsideStateIsOverwritten`. Whatever the game does, it survives only as the town during the
  character selection and as the merchant during looting: `FroggyRuns.OutsideStateSurvivesExactly`.

The docstring of `_reader_loop` (`bridge/ipc_client.py:171-178`) promises that frames of a bad length are
skipped; the code ends the session at one (`bridge/ipc_client.py:189-194`). The model follows the code.

## Model

| member | source | states |
|---|---|---|
| `MessageGroups.GroupsLossless` | bridge/history_manager.py:160-190 | for every list, concatenating its groups gives back the list |
| `MessageGroups.GroupsAreUnits` | bridge/history_manager.py:160-190 | every group of a parse parses alone to itself |
| `MessageGroups.GroupsConcat` | bridge/history_manager.py:160-190 | parsing distributes over concatenation behind valid groups and before anything but a tool message |
| `MessageGroups.UniqueReparse` | bridge/history_manager.py:160-207 | any concatenation of valid groups parses back to exactly those groups |
| `MessageGroups.ValidPromptIdempotent` | bridge/history_manager.py:152-158 | the filter is a projection: its result is well formed and filtering again changes nothing |
| `MessageGroups.WellFormedExactly` | bridge/history_manager.py:152-215 | a list parses into valid groups if and only if, by positions alone, it has no orphan reply and no unanswered call |
| `HistoryTrim.TrimConserves` | bridge/history_manager.py:18-57 | the length before is the length after, less the summary, plus the number the summary states |
| `HistoryTrim.TrimIsSafe` | bridge/history_manager.py:18-57 | a trim that runs leaves a fixpoint of the validity filter |
| `HistoryTrim.TrimKeepsUsers` | bridge/history_manager.py:42-50 | the user messages other than game-state prompts are the same before and after, in order |
| `Messages.ImportantExactly` | bridge/history_manager.py:46-47 | important is every message of the user but a text that begins with the mark of a generated game-state prompt |
| `Messages.ImportantUsersExactly` | bridge/history_manager.py:42-50 | the kept user messages are exactly the important ones, with their repetitions |
| `HistoryTrim.TrimKeepsOrder` | bridge/history_manager.py:18-57 | without the summary, the result is a subsequence of the input |
| `HistoryTrim.TrimIsBounded` | bridge/history_manager.py:27-40 | the recent part has at most limit - 1 + largest group messages |
| `HistoryTrim.TrimCutsExactly` | bridge/history_manager.py:27-40 | the recent part begins at the one group with which the messages, those of invalid groups included, reach the limit from the end, or at the invalid group in front of it if that group is valid; the valid groups from there on are kept, and the important user messages before it |
| `HistoryTrim.TrimTwice` | bridge/history_manager.py:18-57 | a second trim gives the same list, or, exactly in the stated case, that list with the summary's number changed to 1 |
| `PromptViews.RecentWindowIsLongestSuffix` | bridge/history_manager.py:102-120 | the window is the longest suffix of the valid groups within the limit, or the newest valid group alone if that exceeds it, and nothing for a limit of 0 or less |
| `PromptViews.WindowParses` | bridge/history_manager.py:102-120 | the window is well formed |
| `PromptViews.CompactionRestores` | bridge/history_manager.py:59-100 | compaction replaces nothing but stretches of turns of waiting, a lone call of wait with its own reply that reports success, by a summary of their number and last result |
| `PromptViews.CompactionLeavesNoLongRun` | bridge/history_manager.py:79-98 | with a kept number below the minimum, no stretch of as many turns of waiting as the minimum is left |
| `PromptViews.CompactionAccounts` | bridge/history_manager.py:87-98 | length before = length after - summaries + 2 * the turns the summaries state |
| `PromptViews.CompactionStaysWellFormed` | bridge/history_manager.py:59-100 | compacting valid groups leaves valid groups |
| `PromptViews.CompactionIdempotent` | bridge/history_manager.py:59-100 | with a kept number between 1 and the minimum less 1, compacting twice is compacting once |
| `PromptViews.CompactionIdempotentExactly` | bridge/history_manager.py:59-100 | for all numbers: on every history that does not raise, compacting twice is compacting once, if and only if the kept number is 0 or between 1 and the minimum less 1 |
| `PromptViews.SecondCompactionDiffers` | bridge/history_manager.py:87-98 | with any other numbers, a history whose second compaction raises or gives another list than the first |
| `PromptViews.CompactionTotalExactly` | bridge/history_manager.py:79-98 | compaction works on exactly the histories without a stray wait reply if and only if the kept number is negative or between 1 and the minimum less 1; a stray reply makes it raise in any case |
| `PromptViews.CompactionFails` | bridge/history_manager.py:92-96 | outside those numbers a run of wait turns raises |
| `PromptViews.StrayReplyRaises` | bridge/history_manager.py:144-148 | one wait turn whose reply is JSON but no object raises, whatever the numbers |
| `HistoryManager.CollectGroup` | bridge/history_manager.py:172-189 | the loop over replies collects exactly the first group of the parse |
| `HistoryManager.FindGroups` | bridge/history_manager.py:160-190 | the index loop computes the parse |
| `HistoryManager.ValidPromptMessages` | bridge/history_manager.py:152-158 | the loop computes the filtered list |
| `HistoryManager.ScanRecent` | bridge/history_manager.py:22-40 | the backward scan finds the recent groups, the dropped count and the start of the recent part |
| `HistoryManager.KeepUsers` | bridge/history_manager.py:42-50 | the pass over old groups keeps exactly the important user messages and counts the others |
| `HistoryManager.CollectRun` | bridge/history_manager.py:79-85 | the inner loop collects the maximal run of wait pairs, and raises exactly if a stray reply follows |
| `HistoryManager.CompactMessages` | bridge/history_manager.py:70-100 | the loop computes the compaction, or raises exactly where it fails: at an empty run to summarise or a stray reply |
| `HistoryManager.SelectRecent` | bridge/history_manager.py:108-118 | the reversed loop selects the window's groups |
| `HistoryManager.HistoryManager.Append` | bridge/history_manager.py:15-16 | appends one message |
| `HistoryManager.HistoryManager.TrimPreservingUserMessages` | bridge/history_manager.py:18-57 | replaces the messages by the trimmed list |
| `HistoryManager.HistoryManager.ForPrompt` | bridge/history_manager.py:59-100 | returns the filtered or compacted list, or raises as the compaction does, and leaves the history alone |
| `HistoryManager.HistoryManager.RecentForPrompt` | bridge/history_manager.py:102-120 | returns the recent window |
| `RoleHistory.ExecuteToolCall` | bridge/action_dispatcher.py:151-217 | every path appends exactly one reply to its call, unless an exception leaves first |
| `RoleHistory.ExecuteResponse` | bridge/action_dispatcher.py:132-149 | one reply per call, in order, up to the first exception |
| `RoleHistory.RefusedCallsFail` | bridge/action_dispatcher.py:160-191 | in every response a call that does not parse, or whose tool the role may not use, gets a failure under its own name, and the response never breaks off at it |
| `RoleHistory.RefusedCallsDoNothing` | bridge/action_dispatcher.py:160-191 | nothing is done for such a call: whatever its local tool, the gate or the game would answer, the whole response goes the same way |
| `RoleHistory.GameActsExactly` | bridge/action_dispatcher.py:193-217 | the game's answer makes a difference if and only if the call is not refused, no local tool takes it and the gate does not hold it back |
| `RoleHistory.ReplanRunsOnlyOffered` | bridge/planner_loop.py:149-177 | over every replan only tools that the answer's snapshot offers, and not the planner's own, are run |
| `RoleHistory.ActionCallsExactly` | bridge/planner_loop.py:195-201 | the planner's own tool is taken out of a response and all other calls stay in order |
| `RoleHistory.BatchWellFormedExactly` | bridge/action_dispatcher.py:132-217 | the message of a response with its replies leaves valid groups if and only if its calls are settled |
| `RoleHistory.ProperBatchExactly` | bridge/action_dispatcher.py:132-217 | with distinct ids, none missing, settled means one reply for every call |
| `RoleHistory.RepeatedIdsCanBeValid` | bridge/action_dispatcher.py:132-217 | a batch whose ids are not distinct and that is valid |
| `RoleHistory.AppendExactly` | bridge/planner_loop.py:179-193 | appending at a message that is no reply: the whole is valid if and only if both parts are |
| `RoleHistory.RunHistoryExactly` | bridge/action_dispatcher.py:132-217 | over any number of responses the whole history is valid if and only if it was before and every batch was settled |
| `RoleHistory.DispatchedPromptNeverRaises` | bridge/action_dispatcher.py:576-587 | on what the dispatcher wrote, a compacted prompt would not raise with the defaults 4 and 2, or any kept number between 1 and the minimum less 1; no caller outside the tests asks for one |
| `RoleHistory.ReplanOutcome` | bridge/planner_loop.py:71-141 | a returned plan is the last one installed, by an attempt whose batch is complete |
| `RoleHistory.ReplanInstallsOnlyWanted` | bridge/planner_loop.py:101-107 | every plan a replan installs came with an answer that was still wanted; a stale answer ends the replan with nothing installed, appended or run |
| `RoleHistory.ReplanHistoryExactly` | bridge/planner_loop.py:71-141 | with proper ids, for every outcome, returned with or without a plan or raised: the whole history is valid if and only if it was before and no answer that was asked for broke off behind its message |
| `RoleHistory.ReplanSettledExactly` | bridge/planner_loop.py:71-141 | the same for any ids, with unsettled calls in the place of breaking off |
| `RoleHistory.ReplanBatches` | bridge/planner_loop.py:101-134 | a second message is appended only behind an attempt that broke off |
| `RoleHistory.ReplanCanLeaveHalfAnsweredCall` | bridge/planner_loop.py:112-124 | a replan that returns a plan and leaves a half-answered call |
| `RoleHistory.ReplanWithoutPlanCanToo` | bridge/planner_loop.py:112-124 | a replan that returns nothing, because the second answer does not parse, and leaves a half-answered call |
| `RoleHistory.PlannerLoop.Replan` | bridge/planner_loop.py:71-141 | the loop of two attempts leaves exactly the batches, the installed plan and the outcome of the model, also where a look-up raises between the plan and its message |
| `RoleHistory.PlannerLoop.Attempt` | bridge/planner_loop.py:85-177 | one attempt: stale plans are discarded before anything is installed or appended, an exception before the message leaves the plan installed and nothing appended, and only offered tools that are not the planner's own run |
| `RoleHistory.PlannerLoop.AfterAttempt` | bridge/planner_loop.py:109-140 | invalid output and timeouts are tried once more, HTTP errors give up, other exceptions pass through |
| `RoleHistory.PlannerLoop.PromptHistory` | bridge/planner_loop.py:314-343 | the loop computes the rewritten copy of the recent window |
| `RoleHistory.RewriteExactly` | bridge/planner_loop.py:314-370 | a rewritten message keeps role, calls and reply id, of an object only the known keys with a value, and of a text at most the first 400 or 600 characters |
| `RoleHistory.RewriteKeepsSafe` | bridge/planner_loop.py:314-343 | rewriting contents keeps no-orphan and no-half-answered |
| `RoleHistory.PromptAlwaysSafe` | bridge/planner_loop.py:314-343 | for every history, also after an exit mid-batch, the window and its rewritten copy have no orphan reply and no half-answered call |
| `RoleHistory.ExecutorLoop.AppendIdleHistory` | bridge/executor_loop.py:179-183 | a repeated idle note is not appended, a new one is, and then trims |
| `RoleHistory.ExecutorLoop.Respond` | bridge/executor_loop.py:115-139 | a response adds its message and replies, and trims only when no exception leaves |
| `RoleHistory.ExecutorLoop.Tick` | bridge/executor_loop.py:55-139 | one tick, which returns after a timeout or HTTP error of the model and lets its other exceptions out, changes the history exactly as the model of a tick says |
| `RoleHistory.TickKeepsWellFormed` | bridge/executor_loop.py:115-139 | with proper ids, a tick that returns from a valid history leaves a valid history |
| `RoleHistory.TickRunsOnlyAllowed` | bridge/executor_loop.py:122-127 | a tick runs only the executor's tools |
| `RoleHistory.TickAddsExactly` | bridge/executor_loop.py:55-139 | what each kind of tick adds, and that all that a returning tick adds is trimmed |
| `RoleHistory.IdleTwiceIsOnce` | bridge/executor_loop.py:179-183 | for every history, an idle tick that is repeated changes nothing |
| `RoleHistory.TickHistoryExactly` | bridge/executor_loop.py:115-139 | after a trim the history is valid if and only if the trim ran or its parts are valid |
| `IpcFraming.UnpackPack` | bridge/ipc_client.py:156-168 | reading a packed length gives the length |
| `IpcFraming.DrainWire` | bridge/ipc_client.py:170-215 | whatever follows, well-formed frames are read first, in order, and unparsable payloads are skipped without losing the position |
| `IpcFraming.DrainIsExactPrefix` | bridge/ipc_client.py:188-194 | a stream that ends the reader behind well-formed frames yields exactly those |
| `IpcFraming.Decompose` | bridge/ipc_client.py:170-215 | every byte stream is well-formed frames followed by something that ends the reader |
| `IpcFraming.RoundTrip` | bridge/ipc_client.py:156-223 | with inverse encoding and payloads of 1 to 2^20 bytes the reader queues what was sent |
| `IpcFraming.FrameArrivesExactly` | bridge/ipc_client.py:164-168 | a frame arrives if and only if its length is in range: the writer does not check |
| `IpcFraming.Pipe.ReadBytes` | bridge/ipc_client.py:138-150 | exactly the next bytes, over any cutting into non-empty reads, or a failure if the stream is too short |
| `IpcFraming.IpcReader.ReadFrame` | bridge/ipc_client.py:181-213 | one frame: the end, a skipped payload, or a message |
| `IpcFraming.IpcReader.ReaderLoop` | bridge/ipc_client.py:170-223 | for every cutting of the stream the queue receives exactly its messages and then one end mark, and the result table sees the same messages |
| `ActionResults.ApplyKeepsInv` | bridge/ipc_client.py:261-318 | after every step no id is in the backlog while an undone future is pending for it, and the backlog holds at most 100 entries |
| `ActionResults.FinishLeavesNoEntry` | bridge/ipc_client.py:298-303 | a finished wait leaves no pending entry for its waiter, under any id, if and only if it waited under the id the future was registered for, or there was none |
| `ActionResults.RunKeepsInv` | bridge/ipc_client.py:261-318 | the same over every run |
| `ActionResults.ExpectThenDeliver` | bridge/ipc_client.py:261-318 | register, then deliver: the waiter gets the message, whatever happens to other requests in between |
| `ActionResults.DeliverThenExpect` | bridge/ipc_client.py:261-318 | deliver, then register: the waiter gets the same message, with up to 50 deliveries in between |
| `ActionResults.ForgottenResultIsFiled` | bridge/ipc_client.py:280-285 | forgetting the own future drops its entry and cancels it and nothing else, and a result that comes later is filed, over any steps of other requests |
| `ActionResults.SettledIsFinal` | bridge/ipc_client.py:261-318 | over every run a future that is settled, by a result, a refusal or a cancellation, stays as it is |
| `ActionResults.ForgetExactly` | bridge/ipc_client.py:280-285 | the entry of an id is dropped if and only if no future is named or the named one is its own, and what waits for the id is cancelled in any case |
| `ActionResults.PutKeepsEntry` | bridge/ipc_client.py:315-318 | a filed result moves back by at most one place per delivery and is evicted only behind 50 newer ones |
| `ActionResults.ApplyKeepsExclusive` | bridge/ipc_client.py:305-318 | no message is held twice, and a waiter only gets a message with its own id |
| `ActionResults.DeliverHasOneReceiver` | bridge/ipc_client.py:305-318 | a delivered result goes to exactly one future or to the backlog |
| `ActionResults.RunKeepsExclusive` | bridge/ipc_client.py:261-318 | one receiver per message over every run with messages that are told apart |
| `ActionResults.ResultTable.ExpectActionResult` | bridge/ipc_client.py:261-278 | registers a future, or settles it at once from the backlog or for an empty id |
| `ActionResults.ResultTable.ForgetActionResult` | bridge/ipc_client.py:280-285 | cancels whatever waits for the id and drops the entry only of the given future |
| `ActionResults.ResultTable.FinishWait` | bridge/ipc_client.py:298-303 | the cleanup of a wait |
| `ActionResults.ResultTable.DeliverActionResult` | bridge/ipc_client.py:305-318 | settles the waiting future, or files the result and evicts the 50 oldest above 100 |
| `ActionResults.ResultTable.Disconnect` | bridge/ipc_client.py:129-132 | cancels all waiting futures and clears the table |
| `TokenBudget.PruneIsLastHour` | bridge/token_budget.py:125-129 | pruning a clock-ordered rest of the log leaves exactly the last 3600 s of the log |
| `TokenBudget.EveryIntervalWithinCap` | bridge/token_budget.py:106-123 | every closed interval of 3600 s less the gap between the clock readings of a record sums to at most the cap |
| `TokenBudget.KeptIntervalsExactly` | bridge/token_budget.py:106-123 | the guard keeps all closed intervals of a length within the cap if and only if the length is at most 3600 s less the gap |
| `TokenBudget.ClosedHourExactly` | bridge/token_budget.py:106-123 | it keeps all closed hours within the cap if and only if the clock does not move between the two readings |
| `TokenBudget.GuardKeepsEveryInterval` | bridge/token_budget.py:106-123 | the same for any guard none of whose records raised |
| `TokenBudget.GapCanExceedCap` | bridge/token_budget.py:111-116 | an accepted run whose closed hour exceeds the cap, by two readings |
| `TokenBudget.CheckedRunBounded` | bridge/token_budget.py:100-123 | over every run of check-then-record, at any time from a record on, the total is at most the cap - 1 + that response |
| `TokenBudget.DowngradedExactly` | bridge/token_budget.py:131-139 | over every run of updates the guard is downgraded at a time if and only if an update met a burst, the tokens of the spike window above the cap's share of it times the multiplier, that is not longer ago than the downgrade lasts |
| `TokenBudget.BurstOfLog` | bridge/token_budget.py:131-135 | pruning hides nothing from a spike window within the last hour |
| `TokenBudget.ClientTotalBounded` | bridge/agent_loop.py:1477-1486 | the same over the whole run of the agent's use of a guard |
| `TokenBudget.TokenBudgetGuard.PruneAt` | bridge/token_budget.py:125-129 | the deque's sum is the full log's sum over the last 3600 s |
| `TokenBudget.TokenBudgetGuard.TotalTokensLastHour` | bridge/token_budget.py:87-90 | the total is that of the full log for the last hour |
| `TokenBudget.TokenBudgetGuard.CheckBeforeRequest` | bridge/token_budget.py:100-104 | refuses exactly when the last hour of the full log has reached the cap |
| `TokenBudget.TokenBudgetGuard.RecordUsage` | bridge/token_budget.py:106-123 | records always, and raises exactly when the last hour of the full log exceeds the cap |
| `TokenBudget.TokenBudgetGuard.UpdateDowngradeState` | bridge/token_budget.py:131-139 | the loop sums the spike window, and the end of the downgrade is that of the run of updates so far |
| `TokenBudget.TokenBudgetGuard.Tier1Only` | bridge/token_budget.py:96-98 | only the cheap tier may be asked if and only if a recent update met a burst |
| `TokenBudget.CheckedClient.Call` | bridge/agent_loop.py:1477-1486 | a model call is refused exactly when the last hour has reached the cap, and is recorded otherwise |
| `EventBus.QueueIsConsecutive` | bridge/event_bus.py:31-60 | a subscriber's queue is a gap-free block of at most 256 sequence numbers ending at the newest event |
| `EventBus.NothingMissed` | bridge/event_bus.py:42-50 | a subscriber that dropped nothing has consumed or holds every event from the first it was offered |
| `EventBus.ConsumedIncreasing` | bridge/event_bus.py:42-60 | what a subscriber consumed is strictly increasing and older than what it holds |
| `EventBus.LongReplayLeavesGap` | bridge/event_bus.py:53-60 | a replay of more than 256 leaves a queue that the next event does not follow |
| `EventBus.BridgeEventBus.Emit` | bridge/event_bus.py:31-51 | numbers the event, keeps the bounded replay and every queue a block |
| `EventBus.BridgeEventBus.Push` | bridge/event_bus.py:42-50 | hands an event to each subscriber, dropping the oldest of a full queue |
| `EventBus.BridgeEventBus.Subscribe` | bridge/event_bus.py:53-60 | a new queue holds the replay; raises exactly if it does not fit |
| `EventBus.BridgeEventBus.Unsubscribe` | bridge/event_bus.py:62-64 | only the membership changes |
| `EventBus.BridgeEventBus.Take` | bridge/event_bus.py:53-60 | a consumer takes the oldest event of its queue |
| `Observation.ListingRoundTrip` | bridge/observation.py:309-319 | listing by slot in order and reading back by slot is the identity |
| `Observation.MergeBySlot` | bridge/observation.py:309-319 | a merged bar has the slots of both, the updates winning, in slot order |
| `Observation.SkillAtExactly` | bridge/observation.py:309-319 | the skill of a slot is the last one in the list that names it |
| `Observation.MergeIsAssociative` | bridge/observation.py:309-319 | merging updates one by one equals merging their merge |
| `Observation.ChangedBySlot` | bridge/observation.py:322-335 | with distinct slots, a skill is in the delta if and only if its signature differs |
| `Observation.SameSignatureExactly` | bridge/observation.py:292-307 | two skills look the same if and only if slot, identifier, adrenaline, event and the whole part of the recharge agree |
| `Observation.DeltaUndoneExactly` | bridge/observation.py:309-335 | merging the delta restores the current signatures in every slot if and only if the current bar covers the previous one's slots |
| `Observation.MergeSkillbar` | bridge/observation.py:309-319 | the dictionary loops compute the merge |
| `Observation.ChangedSkillSlots` | bridge/observation.py:322-335 | the loops compute the delta |
| `Observation.OverlayAgrees` | bridge/observation.py:385-418 | after every snapshot each slot shows its latest update since the last full bar, each key its last reported value, and the item flag compares the last two reports |
| `Observation.BarShownExactly` | bridge/observation.py:396-416 | a snapshot without a skillbar leaves the bar as it is, a full one shows just its own, and a delta shows the bar before with its skills in their slots |
| `Observation.RefusesExactly` | bridge/observation.py:397-412 | a snapshot raises if and only if it has null agents, or a skillbar after a full null one, which lasts forever |
| `Observation.NullBarRefuses` | bridge/observation.py:397-406 | one full snapshot with a null skillbar, after which any snapshot with a skillbar is refused |
| `Observation.EnrichIncoming` | bridge/observation.py:394-412 | the incoming snapshot with merged bar and derived keys |
| `Observation.ItemsChangedExactly` | bridge/observation.py:338-356 | the flag for changed items is set if and only if some item lies there more or fewer times than before, whatever the order and the other agents |
| `Observation.ChangedSlotsExactly` | bridge/observation.py:397-406 | the reported changes are in the view, and rebuild the bar if and only if the snapshot was a delta or its bar has every earlier slot |
| `Observation.ObservationWindow.AddSnapshot` | bridge/observation.py:385-418 | adds or raises exactly as stated; the view stays equal to what the whole history tells and the window keeps the newest ones |
| `RunHistory.DedupeIsUnique` | bridge/run_history.py:39-54 | no key is left twice |
| `RunHistory.DedupeIsIncremental` | bridge/run_history.py:31-54 | deduplicating a deduplicated list with more items equals deduplicating everything at once |
| `RunHistory.UniqueIsFixed` | bridge/run_history.py:39-54 | a list without repeated keys is unchanged, so deduplicating twice is once |
| `RunHistory.DedupeKeepsLatestAtFirst` | bridge/run_history.py:39-54 | unkeyed items all stay in order and every key keeps its latest item at the place of its first |
| `RunHistory.SameKeyExactly` | bridge/run_history.py:56-71 | only outcomes that count waypoints have a key; equal texts make equal keys, and where no text but the last holds a bar, only equal texts do |
| `RunHistory.KeysCanCollide` | bridge/run_history.py:65-71 | two summaries that differ in reason and phase and of which one is dropped as a repeat of the other |
| `RunHistory.DedupeLoop` | bridge/run_history.py:39-54 | the loop with the index dictionary computes it |
| `RunHistory.ReloadExactly` | bridge/run_history.py:17-37 | reloading what was saved gives the same list if and only if the limit is not negative or nothing is left |
| `RunHistory.NegativeLimitDropsAgain` | bridge/run_history.py:24-26 | two summaries of which a limit of -1 saves one and reloads none |
| `RunHistory.AppendedIsKept` | bridge/run_history.py:31-37 | the appended summary is in the list and the limit is kept |
| `RunHistory.RunHistoryStore.constructor` | bridge/run_history.py:12-26 | loads, deduplicates and cuts the file |
| `RunHistory.RunHistoryStore.Append` | bridge/run_history.py:31-37 | appends, deduplicates, cuts and saves |
| `FailureBudget.RecentOfRecent` | bridge/agent_loop.py:908-926 | pruning early changes nothing a later pruning would see |
| `FailureBudget.ExhaustedExactly` | bridge/agent_loop.py:918-942 | a budget is exhausted if and only if the tool, which neither observes nor waits, failed twice within 180 seconds without a success since |
| `FailureBudget.ThreeFailuresSpanTheWindow` | bridge/agent_loop.py:627-636 | in every orderly, gated record, three failures of a tool without a success in between span more than 180 s if the third went through the gate |
| `FailureBudget.BudgetSpansTheWindow` | bridge/agent_loop.py:908-942 | the same for the whole run of the agent's lists, which keep the record orderly and gated |
| `FailureBudget.GateSpansExactly` | bridge/agent_loop.py:917-928 | three failures of a tool without a success in between always span the window if and only if the tool neither observes nor waits and the third went through the gate |
| `FailureBudget.UngatedFailuresMayCrowd` | bridge/agent_loop.py:1229-1230 | a run of the lists in which the harness fails a dungeon loop three times within two seconds |
| `FailureBudget.FroggyBudget.Prune` | bridge/agent_loop.py:910-913 | the comprehension keeps exactly the failures within the window |
| `FailureBudget.FroggyBudget.Blocked` | bridge/agent_loop.py:917-928 | blocks if and only if the whole record holds two failures of the tool within the window since its last success |
| `FailureBudget.FroggyBudget.Enrich` | bridge/agent_loop.py:621-636 | a success clears the tool's list, a failure prunes and appends; the lists keep counting like the record |
| `FailureBudget.FroggyBudget.ExecuteToolCall` | bridge/agent_loop.py:1232-1240 | a call runs if and only if the record does not exhaust its budget |
| `Plans.RoundTrip` | bridge/plan.py:117-140 | every plan that was ever accepted comes back from its dictionary unchanged, at any later time |
| `Plans.NothingIsRewritten` | bridge/plan.py:117-140 | an accepted plan's dictionary has what was given, field by field; only an expiry that is not positive is replaced, by the phase kind's time |
| `Plans.ConstructedIsAccepted` | bridge/plan.py:146-166 | what validation guarantees of a plan |
| `Plans.AcceptsExactly` | bridge/plan.py:124-193 | a dictionary is a plan if and only if it has the required fields and no others, version 1, numbers for times, a known kind, texts that are not blank, a list of strings and two lists of objects |
| `Plans.EscapesExactly` | bridge/plan.py:117-122 | when a type error escapes instead of a validation error |
| `Supervisor.DecisionIsPermitted` | bridge/froggy_supervisor.py:115-240 | every decision is a permitted tool, needs control exactly when it does not wait or query, and the planner exactly for a map outside the cycle |
| `Supervisor.WaitsForNativeExactly` | bridge/froggy_supervisor.py:264-282 | on a loaded map without a defeat it waits if and only if the native bot is at work, in the snapshot's own fields: busy, or moving or casting in an active state, or in an active phase while not safe, and not handing off |
| `Supervisor.InterruptsExactly` | bridge/froggy_supervisor.py:115-152 | it returns to the outpost if and only if the map is loaded and there is a defeat in the snapshot or an event |
| `Supervisor.ActsByPlaceExactly` | bridge/froggy_supervisor.py:167-240 | with the native bot at rest, which action comes next, by map, free slots and past successes |
| `Supervisor.TekksNextExactly` | bridge/froggy_supervisor.py:193-211 | in Sparkfly the dialog comes next if and only if the bot is close to Tekks or its route to him succeeded recently |
| `Supervisor.DecisionMakesPlan` | bridge/froggy_supervisor.py:62-79 | the plan of every decision is valid, with its phase, its intent and the expiry of its kind |
| `Supervisor.ApproveKeepsSpaced` | bridge/froggy_supervisor.py:106-113 | noting an approval keeps approvals of one signature apart |
| `Supervisor.RepeatsAreSpaced` | bridge/froggy_supervisor.py:106-113 | over the whole run two approvals of one acting signature are at least the minimum interval apart |
| `Supervisor.NotedIsLast` | bridge/froggy_supervisor.py:98-104 | the noted time of a tool is that of its last success in the run |
| `Supervisor.ChoosesTravel` | bridge/froggy_supervisor.py:172-183 | travel is chosen only with a recent town setup and no recent newer travel |
| `Supervisor.AlternationExactly` | bridge/froggy_supervisor.py:172-183 | for every pair of clock readings of a decision: in every run a town setup succeeds between a travel and the next choice of travel under these readings, if and only if the second reading is no later than the first |
| `Supervisor.TravelFollowsTravel` | bridge/froggy_supervisor.py:331-339 | for any readings of which the second is later, a run with success times not after the first one in which travel is chosen right after a travel |
| `Supervisor.TravelAlternatesWithTownSetup` | bridge/froggy_supervisor.py:331-339 | with one reading, it always does |
| `Supervisor.TwoReadingsBreakAlternation` | bridge/froggy_supervisor.py:331-339 | a run in which it does not |
| `Supervisor.FroggySupervisor.ObserveToolResult` | bridge/froggy_supervisor.py:98-104 | only a success of a named action leaves a time |
| `Supervisor.FroggySupervisor.Choose` | bridge/froggy_supervisor.py:115-240 | a tick decides by the successes of the whole run so far |
| `Supervisor.FroggySupervisor.ShouldExecute` | bridge/froggy_supervisor.py:106-113 | approves exactly if the signature was not noted within the interval |
| `PlanController.ApprovalsAreSpaced` | bridge/plan_controller.py:63-93 | over every run successive approvals wait out the interval unless the policy is aggressive or the reason bypasses it, and strict ones do not repeat |
| `PlanController.DebounceBoundsApprovals` | bridge/plan_controller.py:84-93 | under strict and balanced, k debounced approvals anywhere in a run span at least k - 1 intervals |
| `PlanController.IntervalsMultiply` | bridge/plan_controller.py:87 | the span of k intervals is the product |
| `PlanController.StrictNeverRepeats` | bridge/plan_controller.py:89-92 | under strict, no approval repeats the previous signature except for a hard event |
| `PlanController.ApprovedExactly` | bridge/plan_controller.py:63-93 | over every run a reason is approved if and only if the policy is aggressive, or it bypasses the debounce or the interval since the last approval is over, and, under strict, it is hard or the last approval had another signature |
| `PlanController.SignatureExactly` | bridge/plan_controller.py:95-101 | signatures are the same if and only if map, phase, next step and reason are, where phase and next step hold no bar |
| `PlanController.RecordedMapIsLastLook` | bridge/plan_controller.py:103-114 | the recorded map is that of the last evaluation without a hard event that named one |
| `PlanController.NoMapChangeIsLost` | bridge/plan_controller.py:103-114 | under every policy the next evaluation that looks at another map approves map_changed, whatever came in between |
| `PlanController.MapChangedExactly` | bridge/plan_controller.py:103-134 | map_changed is approved if and only if it is the first hard event or the map differs from the last one looked at |
| `PlanController.NothingIsMissed` | bridge/plan_controller.py:103-164 | no reason is found if and only if there is no hard event, other map, expiry, defeat, full inventory, firing abort condition or five stalls |
| `PlanController.FiresExactly` | bridge/plan_controller.py:147-164 | an abort condition fires if and only if it is an object of one of the three kinds and its situation has come; off the route means a distance above the limit, 2500 by default |
| `PlanController.AbortHasCause` | bridge/plan_controller.py:147-164 | an abort reason names a situation that has come |
| `PlanController.QuietReasonHasCause` | bridge/plan_controller.py:116-134 | a quiet reason names its cause |
| `PlanController.StallsAreCounted` | bridge/plan_controller.py:60-61 | the counted stalls are the ticks of a stretch of the run in which every tick stalled and nothing was approved |
| `PlanController.StallsAreAtLeast` | bridge/plan_controller.py:60-81 | and every such stretch is counted in full |
| `PlanController.PlanController.ObserveExecutorTick` | bridge/plan_controller.py:60-61 | counts stalls in a row |
| `PlanController.PlanController.Reason` | bridge/plan_controller.py:103-134 | the first reason in the source's order, noting the map on the way |
| `PlanController.PlanController.Evaluate` | bridge/plan_controller.py:63-93 | the verdict and the state after it, for the run so far |
| `PlannerWakeUps.ReplanStartsExactly` | bridge/two_model_agent_loop.py:256-285 | a cycle starts a replan with its snapshot if and only if none is in flight and a user waits, the supervisor is at a loss, a reason was approved that no one keeps, or the plan is idle and no deterministic supervisor is in charge |
| `PlannerWakeUps.MapChangeStartsReplanExactly` | bridge/two_model_agent_loop.py:256-285 | a map change starts a replan with the new snapshot if and only if none is in flight and no deterministic supervisor keeps it; it is noted, and not approved again, in any case |
| `PlannerWakeUps.SupervisorPassesOnExactly` | bridge/two_model_agent_loop.py:319-370 | with a deterministic supervisor's own decision: if and only if none is in flight, and it met a map outside the cycle or a user waits |
| `PlannerWakeUps.SystemKeepsInv` | bridge/two_model_agent_loop.py:244-296 | over every run of controller and planner together: one background replan at most, and no plan installed for another map or phase than the latest one |
| `PlannerWakeUps.SettledStaysQuiet` | bridge/two_model_agent_loop.py:244-296 | without a reason no number of quiet cycles starts a replan |
| `PlannerWakeUps.MapChangeCanBeLost` | bridge/two_model_agent_loop.py:405-414 | a run in which a map change is approved, meets a replan in flight that ends stale, and is never replanned |
| `AsyncPlanner.ApplyKeepsInv` | bridge/two_model_agent_loop.py:405-452 | every step keeps one running replan at most, and plans installed under their own context |
| `AsyncPlanner.RunKeepsInv` | bridge/two_model_agent_loop.py:405-452 | the same over every run |
| `AsyncPlanner.NoStalePlans` | bridge/planner_loop.py:101-107 | over all interleavings at most one background replan runs, and every plan it installed was requested for a snapshot that agrees with the latest one of that moment in map and in phase, or in state where a phase is empty |
| `AsyncPlanner.AnswerInstallsExactly` | bridge/two_model_agent_loop.py:415-425 | in every state of every run an answer is installed if and only if the latest snapshot agrees in map and phase with the one its replan was scheduled with; otherwise the replan is over |
| `AsyncPlanner.AskedIsCaptured` | bridge/two_model_agent_loop.py:415-420 | a replan is scheduled with the snapshot of its cycle and keeps it |
| `AsyncPlanner.MessagesAreConserved` | bridge/two_model_agent_loop.py:271-279 | over every run the messages spoken are, in order, those handed over and then those pending |
| `AsyncPlanner.HandoversAreTasks` | bridge/two_model_agent_loop.py:405-425 | every replan of a run got exactly one handover of messages, in order, and keeps them; no other handover went to a replan |
| `AsyncPlanner.MessagesReachPlannerExactly` | bridge/planner_loop.py:233-272 | over every run, every message spoken reached a model, is with a replan that still asks, or is pending, if and only if no scheduling with messages met a replan in flight, no replan with messages ended before a call of its model got through, and none that got through had more than five |
| `AsyncPlanner.OnlyLastStillAsks` | bridge/two_model_agent_loop.py:405-433 | the messages of a replan that still runs are those of the last handover to a replan, so at most one has not settled |
| `AsyncPlanner.MessageIsDropped` | bridge/two_model_agent_loop.py:405-414 | a run that drops a message because a replan was in flight |
| `AsyncPlanner.FailedCallLosesMessage` | bridge/planner_loop.py:134-140 | a run whose only message is lost, because the call of the planner model fails |
| `AsyncPlanner.SixthMessageCutsTheFirst` | bridge/planner_loop.py:272 | of six messages the first is never shown |
| `AsyncPlanner.StaleReplanUsesUpMessages` | bridge/planner_loop.py:102-105 | a replan that ends stale has shown its messages to a model and leaves nothing installed and nothing pending |
| `AsyncPlanner.TwoModelLoop.ScheduleAsyncReplan` | bridge/two_model_agent_loop.py:405-425 | schedules with the snapshot of the cycle and under its context, unless a replan is in flight |
| `AsyncPlanner.TwoModelLoop.AcceptPlan` | bridge/planner_loop.py:102-106 | installs if and only if the latest snapshot agrees in map and phase with the one of the request |
| `AsyncPlanner.TwoModelLoop.HearModel` | bridge/planner_loop.py:85-100 | a call of the model got through, with the messages its replan was given |
| `AsyncPlanner.TwoModelLoop.PollAsyncPlanner` | bridge/two_model_agent_loop.py:427-433 | takes a finished replan off |
| `FroggyRuns.HandlersStayRegistered` | bots/froggy/FroggyHM.cpp:1545-1565 | every handler, exceptions included, leads to a registered state or Stopping, and only three of them stop |
| `FroggyRuns.RunStaysRegistered` | bots/common/BotFramework.cpp:84-133 | over every run without outside interference the thread stays in states that a handler serves |
| `FroggyRuns.OutsideStateSurvivesExactly` | bots/common/BotFramework.cpp:115-121 | a state set while a handler runs survives its end whatever the game answers, if and only if it is the town during the character selection or the merchant during looting |
| `FroggyRuns.OutsideStateIsOverwritten` | bots/common/BotFramework.cpp:115-121 | a run in which a state set during the travel handler is overwritten |
| `FroggyRuns.NoHandlerAfterStop` | bots/common/BotFramework.cpp:99-102 | after a stop request no further handler runs and the accounting is final |
| `FroggyRuns.ExitIsFinal` | bots/common/BotFramework.cpp:99-102 | a thread that has ended begins no handler, whatever is set from outside |
| `FroggyRuns.HandleKeepsAccounted` | bots/froggy/FroggyHM.cpp:850-865 | every handler keeps the accounting in order |
| `FroggyRuns.RunKeepsAccounted` | bots/froggy/FroggyHM.cpp:1456-1526 | over every run, a completion comes only directly after the start of the same run, and the best time is the least |
| `FroggyRuns.BestIsMinimum` | bots/froggy/FroggyHM.cpp:855-856 | the best time is the minimum over completed runs, modulo 2^32 |
| `FroggyRuns.CompletionsBoundedExactly` | bots/froggy/FroggyHM.cpp:1456-1526 | in every run of a bot left alone completions never exceed starts at any moment, if and only if the state it begins with is not AwaitingReturn |
| `FroggyRuns.CompletionsNeverExceedStarts` | bots/froggy/FroggyHM.cpp:1456-1526 | a bot set to any state but AwaitingReturn after its start, and then left alone, never completes more runs than it started |
| `FroggyRuns.AwaitingFirstBreaksIt` | bots/froggy/FroggyHM.cpp:1473-1496 | a bot that is started, and then set to await a return, completes a run that never started |
| `FroggyRuns.WipesAreConserved` | bots/froggy/FroggyHM.cpp:253-263 | every wipe is counted, still unobserved, or lost by a reset; the total is right if and only if nothing is unobserved or lost |
| `FroggyRuns.HomecomingExactly` | bots/froggy/FroggyHM.h:297-302 | back in Sparkfly with a run completed, the next state is the merchant if and only if maintenance is needed, and the dungeon if and only if it is not |
| `FroggyRuns.NeededMaintenanceComesFirst` | bots/common/DungeonBotStates.cpp:262-280 | over every run left alone: back in Sparkfly in need of maintenance, no run is started, completed or failed before the merchant's handler has ended |
| `FroggyRuns.AwaitingExactly` | bots/froggy/FroggyHM.cpp:1473-1526 | while a return is awaited and nothing goes wrong, the run is completed on arrival or by a return for needed maintenance, and otherwise nothing changes |
| `FroggyRuns.RewardedRunIsCompletedFirst` | bots/froggy/FroggyHM.cpp:1473-1526 | over every run left alone from a run that has its reward: unless a return goes wrong, it is completed before another is started |
| `FroggyRuns.IsMapInList` | bots/common/DungeonBotStates.cpp:31-41 | the search loop |
| `FroggyRuns.NoRunWithoutDeparture` | bots/common/DungeonBotStates.cpp:67-175 | over every run left alone in the towns, no run starts before a ready outpost, a full maintenance that is done, or an error found in the open sends the bot out |
| `FroggyRuns.FroggyModule.MarkRunStarted` | bots/froggy/FroggyHM.cpp:1456-1462 | a start increments the count with wrap-around and opens the run |
| `FroggyRuns.FroggyModule.MarkFroggyRunCompleted` | bots/froggy/FroggyHM.cpp:850-865 | a completion counts once per start and lowers the best time |
| `FroggyRuns.FroggyModule.RunDungeonLoop` | bots/common/DungeonBotStates.cpp:256-322 | the next state and accounting after a dungeon loop |
| `FroggyRuns.FroggyModule.HandleDungeon` | bots/common/DungeonBotStates.cpp:202-340 | the dungeon handler, with early returns and exceptions |
| `FroggyRuns.FroggyModule.HandleAwaitingReturn` | bots/froggy/FroggyHM.cpp:1473-1526 | the handler that awaits the return |
| `FroggyRuns.FroggyModule.InvokeHandler` | bots/common/BotFramework.cpp:84-93 | an exception leads to Error and keeps what was done |
| `FroggyRuns.BotThread.BeginIteration` | bots/common/BotFramework.cpp:99-113 | leaves, picks the handler, or waits |
| `FroggyRuns.BotThread.EndIteration` | bots/common/BotFramework.cpp:114-121 | a different next state replaces whatever was set meanwhile |
| `FroggyRuns.BotThread.SetBotState` | bots/common/BotFramework.cpp:178-183 | sets the state |
| `FroggyRuns.BotThread.StopBot` | bots/common/BotFramework.cpp:152-157 | requests the stop |

## Left out

- Foreign calls and plumbing: Win32 pipes and processes, HTTP and SSE, model clients, subprocesses, logging,
  telemetry and events for a user interface.
- JSON text: encoding and decoding are an abstract inverse pair with a separate "does not parse" outcome.
- Missing and empty call ids are one value; a tool call that is no object and an id that is no string are
  not modelled, nor is an assistant message whose content is null apart from an empty one.
- In the planner's rewritten copy, a reply that is JSON but no object stands for itself instead of Python's
  string of it, and the texts of the two system notes are not cut to length.
- The world of a tool call (local tools, the advisory gate, game results and their exceptions) is a
  parameter; the memory of control results (`bridge/action_dispatcher.py:481-489`) only feeds that gate.
- Texts for a reader: state summaries, run-summary wording and prompt sections.
- `json` numbers that are strings (a map id, free slots or `units` given as text) and booleans as `units` of
  an abort condition; they read as no number here.
- Futures are entries of a table named by their creation, not asyncio objects; the reader's call that
  delivers a result is a log of the messages handed over.
- Times are reals, so rounding of floats is not modelled; remote-backend policy and the extraction of token
  counts (`bridge/token_budget.py:79-85`, `bridge/token_budget.py:142-160`) are short guards.
- The synchronous planner mode (`PlannerWakeUps` and `AsyncPlanner` model the asynchronous one), the fallback
  to a single model, health checks and snapshot polling of the two-model loop.
- The trade guard, profiles, flight recorder, registries and selectors: short guard chains and counters.
- The rest of the single-model agent (`bridge/agent_loop.py`): only its failure budget is modelled, and only
  for the tools it applies to.
- Game runtime calls of the native bot (routes, vendors, maintenance, dialogs) are nondeterministic results;
  logging and waiting are assumed to return. Hero setup, telemetry fields and the current wipe count are not
  modelled.
- Starting the bot thread again while an old one still runs after the stop timeout
  (`bots/common/BotFramework.cpp:135-170`), and the flag by which starting a running bot or stopping a
  stopped one does nothing.
- FroggyRuns.WipesAreConserved: counts wipes without the wrap-around of 32 bits, because only then is the
  conservation an equation of numbers; run counts and times do wrap.
- Observation.OverlayAgrees: the ground-item flag compares multisets instead of sorted tuples, which are
  equal exactly when the multisets are; deep copies are values.
- Observation.RefusesExactly: does not cover slots and skill fields that `int()` refuses, nor list elements
  that are no objects, which raise as well; the model's skills have numbers and are objects.
- Observation.Truncate: `int()` of values other than numbers raises in the source and is not modelled.
- The event queue of the observation window (`bridge/observation.py:420-437`): a bounded list and its drain.
- FailureBudget.FroggyBudget.ExecuteToolCall: the calls of a response run one after the other, as in the
  source; the harness's own recommended actions appear as attempts that skipped the gate.
- RunHistory.RunHistoryStore.Append: writing the file always succeeds.
