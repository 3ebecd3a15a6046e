# Verified model of the Mealy agent runtime

Mealy is a local agent runtime: a daemon (`mealyd`) that drives model providers, tools and governed
effects, and a control program (`mealyctl`) with a terminal workbench, a dashboard and two
disconnect-resistant maintenance transactions. This project models the parts of it that keep state
or do bounded arithmetic, and proves what they promise for every input, every run and every
interleaving. `dafny verify dfyconfig.toml` checks all of it.

## Components

- **Streaming decoder** (`Utf8`, `Json`, `SseDecoder`, `ProviderDecision`, `StreamAssembler`,
  `StreamRuns`, `StreamResponse`). Bytes to lines to server-sent events to assembled blocks to one
  decision. The decoder class with its compacting buffer and the stream-state class with its maps and
  counters are proved against specification functions; the theorems are about those.
- **Progress sink** (`ProgressSink`, `StreamProgress`). Deltas buffered, cut at character boundaries and
  recorded under a byte and an event bound; the class works on bytes and refines a model on text. Fed by
  the streaming decoder, an enabled sink loses nothing.
- **Admission and budget** (`ProviderAdmission`, `ProviderCost`, `RunBudget`). The in-flight counter at
  the grain of its compare-and-exchange loop, the minute window, and the reserve/settle discipline of
  a run's budget.
- **Effect dispatch** (`EffectDispatch`). Any number of drivers, leases with fencing tokens, a durable
  ledger, crashes, recovery and operator reconciliation as one state machine; every order of steps is
  a run.
- **Delegation** (`Delegation`). The grant and the limits a child run receives, and every check both go
  through.
- **Source locators** (`SourceLocators`). The bounded worklist over JSON.
- **Maintenance transactions** (`TransactionPhases`, `DurableFiles`, `DurableTransactions`,
  `RecoveryHelper`). The phase machine, a directory under crashes, the records and snapshots kept in it,
  and when the recovery helper is sure to be there.
- **Workbench** (`Timeline`, `Editor`). Paged catch-up over a growing log, and the byte-offset editor.
- **Usage report** (`UsageReport`). The dashboard's bucket check.

## Where the code does less than it says

The lemmas named give the exact condition, the inputs that show it, or both.

- A response whose answer is complete and which is followed by a line that is not UTF-8, or by more bytes
  than the bound allows, is refused when it arrives in one piece and can be answered when it arrives in several
  (`StreamResponse.OutcomeIndependentIff`, `StreamResponse.OutcomeBothWays`).
- A streamed tool call is bounded by the length of the received fragments, a whole one by the length of
  the arguments written back; they can disagree (`ProviderDecision.StreamAgreesIff`,
  `ProviderDecision.OversizedCallDiffers`).
- Under a given limit a minute can get more than the limit when the window comes back to it and it is
  asked for more often than the limit. Concurrent callers can cause that around a minute change, since
  the clock is read before the lock is taken (`ProviderAdmission.RateBoundIff`,
  `ProviderAdmission.RateOverrun`).
- The fixture provider's fixed output request ignores the output tokens left
  (`RunBudget.PlanAcceptedIff`, `RunBudget.FixtureOutputOverrun`).
- The drivers retire the helper of any ended record they load, also of one whose persist failed at its
  directory sync. A crash between the removal and the retirement's own sync can then bring the unended record
  back without its helper, also in a retirement that would have completed
  (`RecoveryHelper.LoadedRetireLosesHelper`, `RecoveryHelper.HelperAvailableIff`).
- A release update whose rollback fails can never record that: its validation ties the rollback mark to
  two phases only, and the driver keeps the mark. The provider switch allows it
  (`DurableTransactions.FailedRecoveryRecordedIff`).
- A timeline refresh that fails after a page keeps the events and not the cursor. No later view shows a gap
  (`Timeline.EveryViewIsATail`), but a session just selected then starts over from cursor 0: with more than
  ten thousand events it is not shown again until it is selected anew, though the first refresh of any session
  fits (`Timeline.ForcedFailureRecoversIff`, `Timeline.BoundFailureSticks`, `Timeline.StuckForGood`).
- A citation that more than 4095 values precede in the last-child-first walk is lost unless another value
  that fewer precede carries it too (`SourceLocators.CollectedWholeIff`,
  `SourceLocators.FirstElementMissed`).

## Model

| member | source | states |
|---|---|---|
| Utf8.BoundaryIff | apps/mealyd/src/agent.rs:1726-1732 | a byte offset passes the boundary test exactly when it is the encoded length of a whole-character prefix |
| Utf8.PrefixLength | apps/mealyd/src/agent.rs:1726-1732 | the shrinking index stops at the length of the longest whole-character prefix that fits, and the bytes before it are that prefix |
| Utf8.DecodeEncode | apps/mealyd/src/anthropic_provider.rs:208-232 | strict decoding inverts encoding on every text |
| Utf8.DecodeSound | apps/mealyd/src/anthropic_provider.rs:208-232 | what strict decoding accepts is the encoding of its result, so it refuses everything else |
| SseDecoder.FeedAppend | apps/mealyd/src/anthropic_provider.rs:167-194 | feeding a concatenation is feeding the first part and then the second after the bytes left over |
| SseDecoder.ChunksAreWhole | apps/mealyd/src/anthropic_provider.rs:166-233 | from any live state, pushing chunks and finishing gives what pushing their concatenation does, errors included |
| SseDecoder.ChunkingIndependent | apps/mealyd/src/anthropic_provider.rs:166-233 | any two ways of cutting a response decode to the same events or the same failure |
| SseDecoder.FindNewline | apps/mealyd/src/anthropic_provider.rs:180-183 | the position of the first line feed from an index on, or that there is none |
| SseDecoder.Decoder.ConsumeLine | apps/mealyd/src/anthropic_provider.rs:208-232 | one line's effect on the pending data and the events, as specified |
| SseDecoder.Decoder.DrainLines | apps/mealyd/src/anthropic_provider.rs:178-193 | all complete lines are consumed and the rest is what the specification leaves over, whatever was compacted |
| SseDecoder.Decoder.Push | apps/mealyd/src/anthropic_provider.rs:167-194 | a chunk moves the abstract state as specified; the 64 KiB compaction is invisible and the cursor stays below it |
| SseDecoder.Decoder.Finish | apps/mealyd/src/anthropic_provider.rs:196-206 | the trailing line and the pending event are delivered as specified |
| SseDecoder.FrameRoundTripIff | apps/mealyd/src/anthropic_provider.rs:208-232 | an event framed line by line decodes to itself exactly when it is not empty, does not begin with an empty line and no line ends in a carriage return |
| SseDecoder.FrameLoses | apps/mealyd/src/anthropic_provider.rs:208-232 | two events that do not survive framing |
| SseDecoder.FramedStreamDecodes | apps/mealyd/src/anthropic_provider.rs:166-233 | a framed list of such events, cut anywhere, decodes to that list |
| ProviderDecision.DecisionFromParts | apps/mealyd/src/anthropic_provider.rs:1147-1172 | exactly which text, call and stop reason are accepted, and the decision they give |
| ProviderDecision.DecodeDecision | apps/mealyd/src/anthropic_provider.rs:1056-1102 | the loop over JSON blocks computes the fold of the block rule, refusals included |
| ProviderDecision.DecodeStreamDecision | apps/mealyd/src/anthropic_provider.rs:1104-1145 | the loop over the block map computes the fold in index order |
| ProviderDecision.StreamPartsIff | apps/mealyd/src/anthropic_provider.rs:1104-1145 | blocks are gathered exactly when all are supported, the joined text is within its bound and at most one is a call; then the text is the join and the call that one |
| ProviderDecision.StreamDecisionIff | apps/mealyd/src/anthropic_provider.rs:1104-1172 | which blocks and stop reason give which answer, said without the loop, both ways |
| ProviderDecision.StreamAgreesIff | apps/mealyd/src/anthropic_provider.rs:1056-1172 | streamed and whole decisions on the same blocks are equal except exactly for an accepted call whose arguments, written back, exceed the bound |
| ProviderDecision.OversizedCallDiffers | apps/mealyd/src/anthropic_provider.rs:1174-1212 | every such call is accepted from a stream and refused from a whole response |
| StreamAssembler.AnthropicStreamState.OnMessageStart | apps/mealyd/src/anthropic_provider.rs:759-818 | the start event changes the state as specified or is refused |
| StreamAssembler.AnthropicStreamState.OnBlockStart | apps/mealyd/src/anthropic_provider.rs:819-866 | a block is opened once, with its opening text counted within the text bound |
| StreamAssembler.AnthropicStreamState.OnBlockDelta | apps/mealyd/src/anthropic_provider.rs:867-921 | a delta extends its open block and is reported as progress exactly as specified |
| StreamAssembler.AnthropicStreamState.OnTextDelta | apps/mealyd/src/anthropic_provider.rs:883-898 | text within the bound is appended, counted and emitted |
| StreamAssembler.AnthropicStreamState.OnInputDelta | apps/mealyd/src/anthropic_provider.rs:899-912 | argument fragments within the bound are appended |
| StreamAssembler.AnthropicStreamState.OnBlockStop | apps/mealyd/src/anthropic_provider.rs:922-932 | an open block is closed once |
| StreamAssembler.AnthropicStreamState.OnMessageDelta | apps/mealyd/src/anthropic_provider.rs:933-958 | the stop reason is set and output tokens only rise |
| StreamAssembler.AnthropicStreamState.OnMessageStop | apps/mealyd/src/anthropic_provider.rs:959-991 | the output is produced under the specified conditions only |
| StreamAssembler.AnthropicStreamState.DecodeStreamEvent | apps/mealyd/src/anthropic_provider.rs:735-1001 | every event, parsed or not, refines one step of the state machine: same acceptance, same new state, same progress, same output |
| StreamRuns.ReadEventIsWire | apps/mealyd/src/anthropic_provider.rs:735-1001 | a tool block read from JSON starts with empty input, which the run theorems assume of an event |
| StreamRuns.ReachableInvariant | apps/mealyd/src/anthropic_provider.rs:236-251 | in every reachable state blocks, closed blocks, message identity, stop reason, input and output tokens are what the history spells; text bytes equal the sum over text blocks and the opening texts plus emitted progress, within 64 KiB; closed blocks were opened |
| StreamRuns.WellFormedIff | apps/mealyd/src/anthropic_provider.rs:735-1001 | a history is accepted exactly when each event is admissible after the ones before it |
| StreamRuns.StopIff | apps/mealyd/src/anthropic_provider.rs:959-991 | an output appears exactly when a message was started, every opened block is closed, a reason was given, the decision is acceptable and usage is within bounds; it is that decision |
| StreamRuns.StreamedEqualsWhole | apps/mealyd/src/anthropic_provider.rs:735-1172 | a complete run's streamed answer is the whole decoder's answer on the blocks in index order, apart from the oversized call |
| StreamRuns.NothingAfterOutput | apps/mealyd/src/anthropic_provider.rs:735-758 | after an output every event is refused or changes and yields nothing |
| StreamRuns.OutputTokensMonotone | apps/mealyd/src/anthropic_provider.rs:933-958 | output tokens never decrease along a run |
| StreamRuns.TextBoundUnreachable | apps/mealyd/src/anthropic_provider.rs:1104-1119 | the final text bound never refuses a reachable state |
| StreamResponse.ApplyEvents | apps/mealyd/src/anthropic_provider.rs:718-730 | a batch of events is applied until one ends the response |
| StreamResponse.DecodeStreamResponse | apps/mealyd/src/anthropic_provider.rs:664-732 | the declared-length check and the reading loop give the specified outcome for every list of chunks |
| StreamResponse.OutcomeIndependentIff | apps/mealyd/src/anthropic_provider.rs:664-732 | for a response of any length, declared or not, the outcome is the same for every cutting except exactly when it is read, refused whole, for bad data or for its length, and the events before that already end it otherwise |
| StreamResponse.OutcomeBothWays | apps/mealyd/src/anthropic_provider.rs:664-732 | every such response has a cutting that is answered and one that is refused |
| ProviderCost.CostWithinReservation | apps/mealyd/src/agent.rs:2612-2621 | usage within its reservation never costs more than was reserved |
| ProviderCost.TokenCostExactIff | apps/mealyd/src/anthropic_provider.rs:1519-1532 | the charge is the exact price rounded up exactly when that price is representable after saturation |
| ProgressSink.RunConsistent | apps/mealyd/src/agent.rs:1589-1724 | over every interleaving of offers and flushes: consecutive numbers, non-empty bounded whole-character deltas, exact running sums within the total; recorded and pending text is what fits of the offered deltas, a prefix of it once disabled |
| ProgressSink.SomethingFits | apps/mealyd/src/agent.rs:1646-1663 | the byte-bound and zero-length branches of the flush loop are never taken |
| ProgressSink.EvidenceSnoc | crates/mealy-infrastructure/src/sqlite/agent.rs:845-917 | the next record meets every numeric check the store makes of it |
| ProgressSink.KeptAll | apps/mealyd/src/agent.rs:1703-1724 | nothing is lost while everything offered fits |
| ProgressSink.KeptPrefixIff | apps/mealyd/src/agent.rs:1703-1724 | of the sink alone, for any deltas: what is kept is a prefix of what was offered exactly when every delta after the bound is passed is empty or starts with a character longer than the room left; then it is the longest prefix that fits |
| ProgressSink.DisabledForever | apps/mealyd/src/agent.rs:1589-1724 | a disabled sink never changes again |
| ProgressSink.ForcedDrain | apps/mealyd/src/agent.rs:1627-1700 | a forced flush empties the buffer and, the store accepting, disables only at the event bound |
| ProgressSink.FinalProgress | apps/mealyd/src/agent.rs:1589-1724 | after the closing flush an enabled sink has recorded exactly what fits, whatever the timing before |
| StreamProgress.NothingCut | apps/mealyd/src/anthropic_provider.rs:883-898 | the sink keeps all text any accepted run of stream events emits |
| StreamProgress.EverythingRecorded | apps/mealyd/src/agent.rs:2703-2756 | for every accepted run, offered as far as a cancellation lets it, and every interleaving of its offers with flushes, the recorded text is always a prefix of the emitted text; after the closing flush of an enabled sink it is all that was offered, and for a run offered whole all of the text |
| ProgressSink.DurableProviderProgressSink.RecordNext | apps/mealyd/src/agent.rs:1664-1695 | one drained delta with its number and cumulative count |
| ProgressSink.DurableProviderProgressSink.FlushPending | apps/mealyd/src/agent.rs:1627-1700 | the loop over bytes refines the flush of text |
| ProgressSink.DurableProviderProgressSink.BufferDelta | apps/mealyd/src/agent.rs:1704-1721 | the first critical section of emit cuts and buffers a delta as specified, and says whether a flush follows |
| ProgressSink.DurableProviderProgressSink.EmitDelta | apps/mealyd/src/agent.rs:1703-1724 | without anything in between, an emit is that section and then a flush |
| ProviderAdmission.InFlightBounded | apps/mealyd/src/anthropic_provider.rs:108-133 | under every interleaving of loads, weak exchanges and drops the counter equals the guards held, is at most the maximum and never wraps |
| ProviderAdmission.GuardStepSound | apps/mealyd/src/agent.rs:90-109 | each atomic step keeps that |
| ProviderAdmission.RefusalAndProgress | apps/mealyd/src/anthropic_provider.rs:118-127 | a refusal saw the counter full; a lone caller with room succeeds in two steps |
| ProviderAdmission.GrantedByVisits | apps/mealyd/src/anthropic_provider.rs:371-388 | what a minute is granted is the sum over its uninterrupted visits of each cut at the limit |
| ProviderAdmission.RateBoundIff | apps/mealyd/src/anthropic_provider.rs:371-388 | for every limit and order of reservations, a minute gets at most the limit exactly when it was visited once or not asked for more often than the limit |
| ProviderAdmission.SteadyClockBounded | apps/mealyd/src/agent.rs:722-739 | a clock that never goes back grants exactly the first ones of each minute |
| ProviderAdmission.SixtySecondsBounded | apps/mealyd/src/anthropic_provider.rs:371-388 | and at most twice the limit in any sixty seconds |
| ProviderAdmission.RateOverrun | apps/mealyd/src/anthropic_provider.rs:371-388 | three reservations of which one minute gets two at a limit of one |
| ProviderAdmission.RateWindow.ReserveRateCapacity | apps/mealyd/src/anthropic_provider.rs:371-388 | a reservation is granted exactly when fewer than the limit were asked for in this minute since the window last changed, and the fields stay the current visit of the history |
| RunBudget.BudgetNeverExceeded | crates/mealy-infrastructure/src/sqlite/agent.rs:2708-2770 | after any transactions, used plus reserved is within every limit and reserved is the sum of the open reservations |
| RunBudget.ApplyBalanced | crates/mealy-infrastructure/src/sqlite/agent.rs:3119-3151 | each transaction keeps that |
| RunBudget.OpenReservationCloses | crates/mealy-infrastructure/src/sqlite/agent.rs:3291-3313 | an open reservation can always be recovered; with the lease it can be released, before a cancellation failed, and completed exactly when usage is within it |
| RunBudget.PlanAcceptedIff | apps/mealyd/src/agent.rs:2448-2540 | the store accepts the driver's plan exactly when the run is not cancelled, a call is left and a fixture's fixed request fits; the checked addition never overflows |
| RunBudget.FixtureOutputOverrun | apps/mealyd/src/agent.rs:2497-2502 | a fixture plan the store refuses |
| RunBudget.PlannedCallSettles | apps/mealyd/src/agent.rs:2448-2621 | a planned and reserved call that reports usage within its tokens and bytes settles under its lease at the adapter's price and frees its reservation; after a cancellation it is recovered and charged in full |
| EffectDispatch.DispatchSafety | apps/mealyd/src/agent.rs:3089-3247 | over every interleaving with crashes and recoveries: an execution follows its committed running record, no attempt runs twice, no two dispatches share an attempt or a revision, and after an observation nothing is dispatched, retried, recorded or observed again |
| EffectDispatch.AtMostOnce | crates/mealy-infrastructure/src/sqlite/effects.rs:3654-3690 | executions are at most dispatches, those at most retries plus one; an effect whose policy forbids retrying runs at most once, a denied one never |
| EffectDispatch.SettledForever | apps/mealyd/src/agent.rs:3101-3125 | an unknown outcome is never dispatched again and leaves that status only by reconciliation; a final status never changes |
| EffectDispatch.UnknownIsParked | apps/mealyd/src/agent.rs:3112-3121 | in every reachable state with an unknown outcome nothing was observed, no driver is about to observe, and a lease holder parks the run |
| EffectDispatch.ObservedIsFinal | crates/mealy-infrastructure/src/sqlite/agent_effect.rs:483-645 | what was observed is the final status and revision in every later state |
| EffectDispatch.RecoverySucceeds | crates/mealy-infrastructure/src/sqlite/recovery.rs:134-414 | apart from the checks named below, recovering an active lease never meets one of its invariant errors, and leaves the run queued, or waiting on an unknown outcome, with a newer token |
| EffectDispatch.ClassificationsAgree | crates/mealy-infrastructure/migrations/0005_effect_ledger.sql:758-788 | the view and the store classify every interrupted attempt alike and retry exactly the retryable policies |
| EffectDispatch.UndisturbedDispatch | apps/mealyd/src/agent.rs:3128-3247 | a driver left alone writes its records in order around one execution and ends with the executor's outcome observed, or parked if unproven |
| EffectDispatch.RunSound | apps/mealyd/src/agent.rs:3089-3323 | every step keeps the invariant tying ledger, attempts, drivers, counts, observation and lease |
| EffectDispatch.PrepareSound | crates/mealy-infrastructure/src/sqlite/effects.rs:1196-1284 | preparing keeps it |
| EffectDispatch.MarkSound | crates/mealy-infrastructure/src/sqlite/effects.rs:1343-1424 | marking running keeps it |
| EffectDispatch.RecordSound | crates/mealy-infrastructure/src/sqlite/effects.rs:1523-1617 | recording an outcome keeps it |
| EffectDispatch.ObserveSound | crates/mealy-infrastructure/src/sqlite/agent_effect.rs:483-645 | observing keeps it |
| EffectDispatch.ParkSound | crates/mealy-infrastructure/src/sqlite/agent_effect.rs:365-480 | parking keeps it |
| EffectDispatch.SettleSound | crates/mealy-infrastructure/src/sqlite/effects.rs:1685-2048 | each of the three recoveries of an attempt keeps it |
| EffectDispatch.ReconcileSound | crates/mealy-infrastructure/src/sqlite/effects.rs:2167-2265 | reconciling keeps it |
| Delegation.ChildReadsIff | apps/mealyd/src/agent.rs:488-562 | a child may read exactly what its parent may read with a delegable tool, down to the arguments |
| Delegation.ChildNeverWrites | apps/mealyd/src/agent.rs:564-655 | no grant within a child's ever allows a governed write, a process or a delegation, in any deployment |
| Delegation.ChildGrantedWhole | apps/mealyd/src/agent.rs:3325-3381 | the child's grant is within its parent's and is what the store's three-way intersection grants |
| Delegation.ChildOfChild | apps/mealyd/src/agent.rs:3325-3381 | delegating a child's grant changes nothing |
| Delegation.IntersectionGreatest | crates/mealy-domain/src/delegation.rs:74-140 | the intersection is the greatest grant within all three with one slot spent |
| Delegation.ChildLimitsIff | apps/mealyd/src/agent.rs:3383-3411 | a valid parent's child limits are valid and within it; in general they are exactly when the parent's byte limits are ordered below the caps; they are a fixed point |
| SourceLocators.CollectSourceLocators | apps/mealyd/src/agent.rs:4149-4195 | the loop terminates and adds exactly the locators of the first 4096 values of the walk |
| SourceLocators.SplitOnce | apps/mealyd/src/agent.rs:4150-4154 | the parts around the separator rejoin to the text; without one it does not occur |
| SourceLocators.SplitsAtFirst | apps/mealyd/src/agent.rs:4150-4154 | the split is at the first occurrence |
| SourceLocators.WalkFindsAll | apps/mealyd/src/agent.rs:4158-4194 | the whole walk visits each value once and finds what a recursive collector does |
| SourceLocators.MetAtRank | apps/mealyd/src/agent.rs:4158-4194 | a value is met after exactly its ancestors and everything in later siblings along its path |
| SourceLocators.RankOfPosition | apps/mealyd/src/agent.rs:4158-4194 | every position of the walk is such a rank |
| SourceLocators.CollectedWholeIff | apps/mealyd/src/agent.rs:4158-4194 | nothing foreign is ever collected; everything is exactly when each locator of rank 4096 or more is also carried by a value of lower rank, which up to 4096 values is always so |
| SourceLocators.FirstElementMissed | apps/mealyd/src/agent.rs:4160-4163 | any citation put first in an array of 4096 is missed |
| TransactionPhases.NeverBack | apps/mealyctl/src/lifecycle.rs:1005-1051 | the rank rises on every real step, terminal phases absorb, nothing activated aborts, a rollback never commits |
| TransactionPhases.CommittedInOrder | apps/mealyctl/src/lifecycle.rs:1005-1051 | apart from repetitions a committed history is the eight phases in order |
| TransactionPhases.TerminalReachable | apps/mealyctl/src/provider_switch.rs:511-560 | from every phase a terminal one can be reached |
| DurableFiles.ReplaceAtomic | apps/mealyctl/src/lifecycle.rs:829-861 | in every state of a replacement, failing anywhere, a crash leaves a complete record, an old one or the new |
| DurableFiles.ReplaceDurable | apps/mealyctl/src/provider_switch.rs:660-675 | a successful replacement leaves only the new record; an old temporary file makes the update's replacement change nothing |
| DurableFiles.ReplaceKeeps | apps/mealyctl/src/lifecycle.rs:829-861 | no other file is disturbed |
| DurableFiles.CrashLoads | apps/mealyctl/src/lifecycle.rs:808-826 | after a crash a complete record that was possible before it is loaded |
| DurableTransactions.CrashSafety | apps/mealyctl/src/lifecycle.rs:808-861 | over every sequence of persists, retires, failures and crashes anywhere the record loads, has its first identity, its phase's evidence and a phase reachable from scheduling |
| DurableTransactions.AcknowledgedSurvives | apps/mealyctl/src/provider_switch.rs:318-352 | an acknowledged persist is never lost or undone; an ended transaction stays ended |
| DurableTransactions.PersistSound | apps/mealyctl/src/provider_switch.rs:336-352 | every intermediate state of a persist keeps the invariant |
| DurableTransactions.RetireSound | apps/mealyctl/src/provider_switch.rs:414-427 | every intermediate state of a retirement keeps it |
| DurableTransactions.SoundLoads | apps/mealyctl/src/provider_switch.rs:318-333 | what is found loads and validates, snapshots included |
| DurableTransactions.PrepareEstablishes | apps/mealyctl/src/lifecycle.rs:633-713 | a completed preparation makes record, snapshots and helper durable |
| DurableTransactions.PayloadsBeforeRecord | apps/mealyctl/src/provider_switch.rs:251-316 | helper and snapshots are on disk before the record first appears |
| DurableTransactions.PreparationLosesHelperIff | apps/mealyctl/src/lifecycle.rs:687-712 | a crash during preparation can leave the record without its helper exactly between the writing of the record and the closing directory sync |
| RecoveryHelper.RetireSafeIff | apps/mealyctl/src/lifecycle.rs:739-753 | retiring is safe exactly when no record a crash can leave, or after the final sync the one on disk, still needs the helper |
| RecoveryHelper.LoadedRetireLosesHelper | apps/mealyctl/src/main.rs:2708-2744 | a run of the drivers, with one failed sync and one crash, that leaves a scheduled transaction without its helper |
| RecoveryHelper.AllRetirableIff | apps/mealyctl/src/lifecycle.rs:829-861 | every record a crash could leave has ended exactly when the one loaded after the last completed directory sync or crash has |
| RecoveryHelper.HelperAvailableIff | apps/mealyctl/src/lifecycle.rs:633-753 | over every run, a transaction that can advance or whose recovery failed has its helper in every state of every call, whatever a crash leaves, exactly when the helper is never removed while the record loaded after the last completed directory sync or crash has not ended |
| RecoveryHelper.HelperSincePreparation | apps/mealyctl/src/provider_switch.rs:251-427 | the same for every run since a completed preparation |
| DurableTransactions.FailedRecoveryRecordedIff | apps/mealyctl/src/main.rs:2934-2977 | a failed recovery can be recorded by a switch always, by an update exactly when no rollback was begun |
| DurableTransactions.TransactionDirectory.PersistTransaction | apps/mealyctl/src/lifecycle.rs:829-861 | in every state the system calls pass through the transaction is sound and its helper kept; success leaves only the new record, a refusal everything as it was |
| DurableTransactions.TransactionDirectory.RetireHelper | apps/mealyctl/src/lifecycle.rs:739-753 | the record stays sound in every state; success removes the helper for good and leaves the loaded record the only possible one |
| Timeline.Workbench.RefreshTimeline | apps/mealyctl/src/tui.rs:997-1059 | catch-up ends at the first page that reaches the end of the growing log, holding the latest 500 of what was held and all that followed the start; otherwise it fails and keeps its cursor |
| Timeline.Workbench.AppendPage | apps/mealyctl/src/tui.rs:1035-1044 | the window keeps the latest 500 |
| Timeline.ServedPageValid | apps/mealyctl/src/tui.rs:1417-1438 | the server's pages always pass the client's check |
| Timeline.PageStep | apps/mealyctl/src/tui.rs:1014-1054 | one page is valid and extends the held events to its end without gap or repetition |
| Timeline.AfterContinues | apps/mealyctl/src/tui.rs:1045-1049 | continuing from the last held event gives exactly the rest |
| Timeline.EveryViewIsATail | apps/mealyctl/src/tui.rs:958-1059 | over every sequence of refreshes since a session was selected, failed ones at any page included, each successful view is the latest 500 events of the growing log, or all in the initial window, without gap or repetition |
| Timeline.TailOrdered | apps/mealyctl/src/tui.rs:1417-1438 | such a view is strictly increasing |
| Timeline.CatchUpFailsIff | apps/mealyctl/src/tui.rs:1005-1058 | on a still log catch-up fails exactly beyond 10000 events; one from the initial window never |
| Timeline.FailureRepeats | apps/mealyctl/src/tui.rs:1005-1013 | a refresh that failed on the bound fails again from the same start |
| Timeline.NextViewIff | apps/mealyctl/src/tui.rs:1035-1054 | with any unbroken piece of the log in hand the next view is a tail exactly when new events fill the window or the last event held is the one at the cursor |
| Timeline.SuccessCurrent | apps/mealyctl/src/tui.rs:1005-1054 | from an empty view, one that was current, or one with more than a page to come, a successful refresh shows the current view |
| Timeline.FailureResumable | apps/mealyctl/src/tui.rs:1005-1058 | a failed refresh leaves a view of one of these kinds |
| Timeline.RefreshedIff | apps/mealyctl/src/tui.rs:1005-1058 | a view with something in it is refreshed from a still log exactly when at most 10000 events follow its cursor |
| Timeline.BoundFailureSticks | apps/mealyctl/src/tui.rs:1015-1058 | after any earlier refreshes, one that ten pages did not complete leaves more than 10000 events past the cursor |
| Timeline.StuckForGood | apps/mealyctl/src/tui.rs:958-1059 | from then on every refresh fails, however the log grows |
| Timeline.ForcedFailureRecoversIff | apps/mealyctl/src/tui.rs:1005-1058 | after a forced refresh that failed past its first page a still session is shown again exactly when at most 10000 events follow cursor 0, though a forced refresh always fits |
| Editor.Editor.WithContent | apps/mealyctl/src/tui.rs:170-173 | the cursor starts at the end |
| Editor.Editor.InsertCharacter | apps/mealyctl/src/tui.rs:175-184 | bytes and cursor refine the zipper insert |
| Editor.Editor.InsertText | apps/mealyctl/src/tui.rs:186-190 | a paste is the insert of each normalised character |
| Editor.Editor.Backspace | apps/mealyctl/src/tui.rs:192-197 | removes exactly the character before the cursor |
| Editor.Editor.Delete | apps/mealyctl/src/tui.rs:199-204 | removes exactly the character after it |
| Editor.Editor.MoveLeft | apps/mealyctl/src/tui.rs:206-210 | moves over one character and keeps the bytes |
| Editor.Editor.MoveRight | apps/mealyctl/src/tui.rs:212-216 | moves over one character and keeps the bytes |
| Editor.Editor.PreviousStart | apps/mealyctl/src/tui.rs:193-196 | the offset where the character before the cursor starts |
| Editor.Editor.NextEnd | apps/mealyctl/src/tui.rs:200-203 | the offset where the character after it ends |
| Editor.Editor.Clear | apps/mealyctl/src/tui.rs:218-221 | nothing is left |
| Editor.RunClean | apps/mealyctl/src/tui.rs:169-221 | no sequence of edits passes the byte bound or leaves a refused character |
| Editor.InsertInverts | apps/mealyctl/src/tui.rs:175-197 | an accepted insert and a backspace restore the state; backspace is moving left and deleting |
| Editor.MovedLeftAndBack | apps/mealyctl/src/tui.rs:206-216 | moving left and right restores the state |
| Editor.MovedRightAndBack | apps/mealyctl/src/tui.rs:206-216 | moving right and left does |
| Editor.Normalized | apps/mealyctl/src/tui.rs:187-188 | the three line endings become one, nothing else changes, no carriage return is left |
| Editor.PasteWholeIff | apps/mealyctl/src/tui.rs:186-190 | a paste arrives whole exactly when its characters are acceptable and it fits; the text after the cursor is untouched |
| UsageReport.ValidAdminUsageReport | apps/mealyctl/src/dashboard.rs:3297-3368 | the loop accepts exactly the reports with valid buckets in order and safe column totals |
| UsageReport.AddTotals | apps/mealyctl/src/dashboard.rs:3356-3364 | the running totals are the column sums, and the check fails exactly when one is unsafe |
| UsageReport.AcceptedReport | apps/mealyctl/src/dashboard.rs:3297-3368 | accepted windows are disjoint days in order, totals are safe, completed is succeeded plus failed plus cancelled |
| UsageReport.BucketCountBound | apps/mealyctl/src/dashboard.rs:3332-3343 | alignment, overlap and order allow at most one bucket more than the days of the range |
| UsageReport.ThirtyDaysFit | apps/mealyctl/src/dashboard.rs:2842-2846 | for the dashboard's thirty days the bound of 31 never rejects |

## Assumptions and readings

- JSON text syntax, the length of a value written back as JSON, SHA-256 digests and the clock are
  parameters. All malformed-response errors of the provider are one value; their texts are not modelled.
- The effect model takes each store transaction as one atomic step with the guards its SQL states, and
  allows an active lease to be recovered at any moment, which covers expiry and restart.
- The session log is taken to grow only at its end. The store also shows memory events of the session's
  workspaces, so a new workspace identity can make older events appear; the timeline results do not cover
  that.
- A directory change is durable after the directory is synced; before that a crash may keep or lose the
  change of each name separately, and may leave anything in a file that was not synced.

## Left out

- HTTP transport, timeouts, content types, cancellation while waiting for a chunk: input and output.
- StreamAssembler.AnthropicStreamState.OnMessageStart: does not state the message identity a refused start leaves, because the caller drops the stream then.
- StreamAssembler.AnthropicStreamState.OnMessageDelta: does not state the stop reason a refused event leaves, for the same reason.
- StreamAssembler.AnthropicStreamState.OnMessageStop: does not state the stopped mark a refused decision leaves, for the same reason.
- StreamAssembler.AnthropicStreamState.DecodeStreamEvent: does not state the fields of the state after a refused event, because the caller drops the stream then.
- ProgressSink.DurableProviderProgressSink.EmitDelta: does not model a poisoned lock, which only ends the call.
- StreamProgress.EverythingRecorded: covers this streaming adapter; the other one is not part of this model.
- RunBudget.BudgetNeverExceeded: does not model the tool-call and delegation columns.
- RunBudget.OpenReservationCloses: does not model the attempt's own state and deadline checks, which a completion, a failure or a release also make.
- RunBudget.PlannedCallSettles: the same, and takes the context estimate as within its budget.
- EffectDispatch.RecoverySucceeds: does not model that recovery refuses a clock behind the attempt's times, nor its checks of the task and of other effects of the run.
- EffectDispatch.DispatchSafety: does not model approval before authorisation, lease expiry times, or several effects of one run.
- EffectDispatch.UndisturbedDispatch: does not model the executor's evidence text, nor that an observation is refused when it exceeds 65,536 bytes or the output bytes left to the run.
- RecoveryHelper.AllRetirableIff: for a switch, a persist that fails only at its second directory sync counts as completed, since its record is on disk for good; its caller cannot tell it from a failure of the first.
- DurableTransactions.CrashSafety: does not model two processes persisting at once, file modes, or the format checks of single record fields.
- DurableTransactions.PrepareEstablishes: does not model the removal of files after a failed preparation.
- Timeline.Workbench.RefreshTimeline: does not model the selected row of the activity list.
- Timeline.EveryViewIsATail: takes the latest cursor and the log of a session as never going back, and a forced refresh as made only on a view just cleared, as its callers do.
- The service supervision, backup and qualification steps between phases: foreign processes.
- Provider routing, context compilation, prompt text, dashboard handlers and terminal rendering: they would add easy members or rest on code outside the cited files.
