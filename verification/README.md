# A verified model of the agent platform

This project models the stateful core of the agent platform in Dafny and proves what it keeps, over every input and
every run. `dafny verify dfyconfig.toml` checks all of it.

| part | modules |
|---|---|
| tool turns: conflict detection, validation, approval, checkpoint, run, finalise or roll back, record, replay | `ToolTurn` (what a turn does, and the laws of one turn), `AgentRuns` (laws over whole runs), `ToolTurnExecutor` (the executor that updates outcomes and transcript in place), `ToolRun`, `ToolOutput`, `LoopEvents` |
| model turns and text chunking | `ModelTurn`, `Text`, `Utf8` |
| context assembly and compaction | `Context`, `PlanFragments`, `Conversation`, `Numerals` |
| task-plan graph validation | `TaskPlan` |
| audit export, restore evidence, artifact keys and URIs | `AuditFile`, `AuditWriter`, `AuditJson` (a codec that meets their hypotheses), `Recovery`, `Artifacts` |
| worker attempts | `Worker` |
| an optional value, shared by all | `Wrappers` |

How the environment enters. The checkpoint coordinator, the tool streams, the gateway, the token estimator, the
compressor, the redactor, the clock, SHA-256 and the queue are parameters of every theorem, so each result holds for all
their behaviours. A record codec is any printer and parser that satisfy `AuditFile.Faithful`, which asks them to be
inverse on the records an export can hold (128-bit identifiers, 64-bit times, valid entries, counts within the record
limit), and `AuditJson` gives one in bytes; percent-encoding is any pair of functions that satisfy `Artifacts.Conforms`. A tool turn is specified by functions on values (`ToolTurn.Execute`
and what it calls); the executor's methods are proved equal to them, and the laws are proved of the functions. Rejecting
an input is modelled as a value (`Option`, `Outcome`, a verdict or a failure code), never as a precondition.

Text is a sequence of Unicode scalar values with the UTF-8 widths of section 3 of RFC 3629 and JSON widths of at most
six bytes. Identifiers that are only compared are plain strings or numbers; times and UUIDs are bounded numbers with
their order.

## Where the code does not meet its promise

Each of these is stated with its exact condition, most of them with a concrete case as well.

- A tool's output is turned into events after the tool has run and outside any handler. An output whose escaped form
  exceeds one event payload raises there: the workspace keeps the tool's changes, nothing is recorded and nothing is
  rolled back (`AgentRuns.UnreportableOutputSkipsRollback`, with the default limit of 256 KiB). Started calls end intact
  exactly under `ToolTurn.IntactExactly`, and whatever a tool says can be reported exactly when the output limit leaves
  room for escaping all of it (`AgentRuns.ReportableExactly`).
- At-most-once execution depends on the loop stopping at a turn that does not continue: such a turn may have run a call
  without recording it (`AgentRuns.TerminalTurnForgets`).
- A sandbox permit is lost when the heartbeat stops, or the attempt is cancelled, between the acquire task taking the
  permit and the attempt noting it, and when an acquire task outlives its attempt, because that was cancelled or because
  its heartbeat task ended cancelled. Conservation holds exactly for runs without such an event
  (`Worker.PermitsAreConservedExactly`, `Worker.PermitIsLost`, `Worker.CancelledHeartbeatOrphans`).
- A validated writer lease is not released when the heartbeat ended with an error that is neither a cancellation nor a
  domain error (`Worker.WriterIsReleasedExactly`, `Worker.WriterIsKept`).
- An attempt that is cancelled, or times out, while it waits for a restore or an execution does not stop that task: it
  gives back its permit and releases its writer lease while the task may still run. Nor does one whose heartbeat task
  ended cancelled, for asking that task for its error raises before the operation is cancelled and awaited. So more
  operations can run than there are permits, and one can outlive its lease (`Worker.OperationsExceedPermits`,
  `Worker.OperationOutlivesLease`, `Worker.CancelledHeartbeatDeserts`). That takes such an event, and each leaves one
  operation behind (`Worker.AbandonedExactly`, `Worker.SandboxesAreBounded`).
- The depth-first search needs one call more than there are tasks exactly when it finds a cycle with every task open, as
  on two tasks that depend on each other (`TaskPlan.FindCycle`, `TaskPlan.MutualDependency`).
- Fitting a summary raises, instead of returning text that fits, when the critical fragments already fill the message
  limit without a system message (`Context.FullConversationIsCrowded`), and when the bisection tries a prefix that is too
  long for a fragment once escaped, as with 256 KiB of control characters and a large budget
  (`Context.ControlsOvershoot`). With the UTF-8 estimator these are exactly the cases (`Context.FitSummary`), and the
  second needs a summary that would itself be too long (`Context.ShortSummariesFit`).
- Export metadata cannot be built when the clock has gone back behind the cutoff, though the file is complete
  (`AuditWriter.Export`).
- The aggregate check on event logs relies on the store keeping sequence numbers unique, and on nothing else
  (`Recovery.AggregatesAgreeWithScan`, `Recovery.DuplicatesFoolTheAggregates`).

## Model

| member | source | states |
|---|---|---|
| `ToolTurn.Conflict` | packages/agent-core/src/agent_core/_tool_turn.py:649-668 | No conflict is reported exactly when every call agrees with the record and with all earlier calls on what its identifier stands for, and no invalid call reuses an identifier |
| `ToolTurnExecutor.Executor.FindConflict` | packages/agent-core/src/agent_core/_tool_turn.py:649-668 | The scan over the identity dictionary finds exactly that conflict |
| `ToolTurnExecutor.CheckCalls` | packages/agent-core/src/agent_core/_tool_turn.py:655-663 | First half of the scan: first disagreeing call, or the set of all identifiers in use |
| `ToolTurnExecutor.CheckInvalid` | packages/agent-core/src/agent_core/_tool_turn.py:664-668 | Second half: first invalid call that reuses an identifier |
| `ToolTurnExecutor.Executor.PrepareCalls` | packages/agent-core/src/agent_core/_tool_turn.py:726-757 | A call is prepared exactly when its identifier is neither recorded nor used earlier in the turn |
| `ToolTurnExecutor.Executor.RejectConflictingTurn` | packages/agent-core/src/agent_core/_tool_turn.py:670-724 | Every call fails, nothing runs or is recorded, and the turn ends the run |
| `ToolTurnExecutor.Executor.RejectInvalidTurn` | packages/agent-core/src/agent_core/_tool_turn.py:759-837 | Every call fails, each identifier without an outcome gets a failed one and the others keep theirs, and the run ends exactly when the retry budget is spent |
| `ToolTurnExecutor.Executor.RecordDefaults` | packages/agent-core/src/agent_core/_tool_turn.py:776-807 | Recorded outcomes are never overwritten by a rejection |
| `ToolTurnExecutor.Executor.AskApprovals` | packages/agent-core/src/agent_core/_tool_turn.py:249-278 | One numbered approval request per new call that needs a decision nobody has made, in call order |
| `ToolTurnExecutor.Executor.CreateCheckpoint` | packages/agent-core/src/agent_core/_tool_turn.py:357-437 | None is refused exactly when there is a coordinator and the checkpoint it returned is for this call, this transcript length and this request; otherwise the code that ends the run |
| `ToolTurnExecutor.Executor.Finalize` | packages/agent-core/src/agent_core/_tool_turn.py:516-604 | Success keeps the tool's workspace and adds the revision, and the result with it is within the result limit; anything else rolls back |
| `ToolTurnExecutor.Executor.Conclude` | packages/agent-core/src/agent_core/_tool_turn.py:488-604 | How a tool that ran to its end is settled, and the workspace that leaves |
| `ToolTurnExecutor.Executor.Cancelled` | packages/agent-core/src/agent_core/_tool_turn.py:458-477 | A cancelled side-effecting call is rolled back before the cancellation goes on, or a restore failure escapes |
| `ToolTurnExecutor.Executor.Say` | packages/agent-core/src/agent_core/_tool_turn.py:478-486 | One numbered event per piece of output, or an exception exactly when some piece is too large for an event |
| `ToolTurnExecutor.Executor.PerformCall` | packages/agent-core/src/agent_core/_tool_turn.py:438-641 | A started call changes outcomes, transcript, workspace, log and events exactly as specified, for a run its stream can yield under the result limit its effect calls for |
| `ToolTurnExecutor.Executor.StepCall` | packages/agent-core/src/agent_core/_tool_turn.py:283-641 | One call of an admitted turn: replayed, refused, answered or run |
| `ToolTurnExecutor.Executor.RunCalls` | packages/agent-core/src/agent_core/_tool_turn.py:279-647 | The loop over the calls stops at the first that does not continue; every handler run is a call of the turn and yielded what its stream can under the limits its effect calls for |
| `ToolTurnExecutor.ExplainStep` | packages/agent-core/src/agent_core/_tool_turn.py:282-457 | An identifier is prepared at its first use only, so a step that runs one explains it and disturbs no other |
| `ToolTurnExecutor.Executor.ExecuteTurn` | packages/agent-core/src/agent_core/_tool_turn.py:207-647 | A whole turn is the specified one for runs that explain its log: every handler run is a call of the turn, and yielded what its stream can under the limits its effect calls for. Events are numbered consecutively; a cancellation escapes only if a tool was cancelled |
| `ToolTurn.NothingAwaits` | packages/agent-core/src/agent_core/_tool_turn.py:249-278 | No approval is requested exactly when every call that needs a decision has one |
| `ToolTurn.StepMoves` | packages/agent-core/src/agent_core/_tool_turn.py:283-641 | A step runs a handler only for an unrecorded, prepared and approved call, keeps every recorded outcome, and answers from the record |
| `ToolTurn.StepsRunOnce` | packages/agent-core/src/agent_core/_tool_turn.py:282-641 | The handlers an admitted turn runs are distinct, unrecorded before, and recorded after unless the turn broke off there |
| `ToolTurn.TurnRunsOnce` | packages/agent-core/src/agent_core/_tool_turn.py:226-641 | The same for every turn, and no recorded outcome changes |
| `ToolTurn.StepsArePrepared` | packages/agent-core/src/agent_core/_tool_turn.py:322-323 | The assertion that a new call has a prepared execution never fails |
| `ToolTurn.GatedTurnRunsNothing` | packages/agent-core/src/agent_core/_tool_turn.py:226-278 | A turn with a conflicting, invalid or unapproved call runs no handler and leaves workspace and finalised revisions alone |
| `ToolTurn.OpenTurnAnswers` | packages/agent-core/src/agent_core/_tool_turn.py:282-647 | Every call reached is answered, in order, with exactly what is recorded for its identifier, so repeats replay it |
| `ToolTurn.TurnAnswersEveryCall` | packages/agent-core/src/agent_core/_tool_turn.py:282-647 | Every turn that does not end the run appends exactly one tool message per proposed call in call order, then at most one other message |
| `ToolTurn.PerformIsTransactional` | packages/agent-core/src/agent_core/_tool_turn.py:438-641 | A started call leaves the workspace as it was, or finalised under a completed outcome carrying its revision |
| `ToolTurn.SideEffectIsAllOrNothing` | packages/agent-core/src/agent_core/_tool_turn.py:438-641 | An intact side-effecting call either leaves the workspace as it was, with a failed completion or a cancellation, or leaves the finalised one with a recorded and reported completion carrying its revision |
| `ToolTurn.TurnIsTransactional` | packages/agent-core/src/agent_core/_tool_turn.py:356-641 | The same over a whole turn, for every coordinator and tool, unless a rollback failed or output could not be reported |
| `ToolTurn.IntactExactly` | packages/agent-core/src/agent_core/_tool_turn.py:438-604 | Those two escapes, exactly: intact if and only if all output is reportable and the call is finalised or its rollback works |
| `AgentRuns.EveryCallRunsAtMostOnce` | packages/agent-core/src/agent_core/loop.py:155-357 | Over any number of turns each identifier's handler runs at most once and no recorded outcome changes |
| `AgentRuns.TerminalTurnForgets` | packages/agent-core/src/agent_core/_tool_turn.py:488-515 | A command that crashes and cannot be rolled back ends the run, and executing the same turn again would run it again, so stopping there is essential |
| `AgentRuns.RunsAreTransactional` | packages/agent-core/src/agent_core/_tool_turn.py:356-641 | Over any number of turns the workspace is the last finalised one, and every finalised one is a recorded completed outcome |
| `AgentRuns.TurnKeepsBlocks` | packages/agent-core/src/agent_core/_tool_turn.py:282-647 | However a turn ends, each tool message stays in a block opened by the message that declared it |
| `AgentRuns.ConversationsAreBlocked` | packages/agent-core/src/agent_core/loop.py:155-357 | Conversations built by the loop are block structured |
| `AgentRuns.ReportableExactly` | packages/agent-core/src/agent_core/events.py:165-176 | Over every stream, ending and redaction: whatever the tool run yields can be reported exactly when the output limit leaves room for escaping all of it |
| `AgentRuns.UnreportableOutputSkipsRollback` | packages/agent-core/src/agent_core/_tool_turn.py:478-486 | With the default limit a turn whose one command prints control characters runs it, raises, records nothing and leaves its workspace behind, even if a rollback would work |
| `LoopEvents.EventFactory.Metadata` | packages/agent-core/src/agent_core/_loop_events.py:49-56 | Every event gets the next number |
| `ToolRun.ReserveSuffices` | packages/agent-core/src/agent_core/_tool_turn.py:566-579 | A result accepted under the reduced limit still fits the full one with any valid revision added, so that size check never refuses |
| `ToolRun.SetLookup` | packages/agent-core/src/agent_core/_tool_turn.py:566-569 | Adding the revision sets that member and no other |
| `ToolRun.TakeItem` | packages/agent-core/src/agent_core/_tool_turn.py:945-990 | One stream item keeps the protocol state, or is the first to break it: data after the result, an unsupported event, or output over the limit |
| `ToolRun.BreaksOnce` | packages/agent-core/src/agent_core/_tool_turn.py:945-990 | A stream is broken at one item at most, and at none exactly when it is clean |
| `ToolRun.Collect` | packages/agent-core/src/agent_core/_tool_turn.py:939-990 | The stream loop fails exactly on streams that break the protocol or the output limit, with the code of the first item that does; what it captured is all that was said before that item and, of an overflowing chunk, as much as fits, marked |
| `ToolRun.Run` | packages/agent-core/src/agent_core/_tool_turn.py:917-1084 | A result exactly for a good stream whose result and redacted result fit, a cancellation exactly when the stream was cancelled as it stopped or, left at a broken protocol, as it was closed, and otherwise a failure code that says why; and the output is the merged output of the stream, redacted and cut to the limit |
| `ToolRun.CleanStreamsAreDetermined` | packages/agent-core/src/agent_core/_tool_turn.py:917-1084 | A clean stream whose redacted output fits determines everything a run yields |
| `ToolRun.OneChunkYields` | packages/agent-core/src/agent_core/_tool_turn.py:917-1084 | A tool that says one thing and returns yields exactly that output and that result, and nothing else |
| `ToolRun.SilentCrashYields` | packages/agent-core/src/agent_core/_tool_turn.py:1011-1022 | A tool that crashes before it says anything yields exactly that failure |
| `ToolOutput.AppendBounded` | packages/agent-core/src/agent_core/_tool_turn.py:120-142 | Keeps the longest prefix that fits, reports overflow exactly when not all does, and then marks the last entry; entries before it stay as they are |
| `ToolOutput.Coalesce` | packages/agent-core/src/agent_core/_tool_turn.py:151-165 | Merging neighbours changes neither the characters nor their channels, and no two neighbours share a channel |
| `ToolOutput.MergedIsUnique` | packages/agent-core/src/agent_core/_tool_turn.py:151-165 | Only one sequence of entries that alternate channels, none empty, spells a given channel-tagged stream |
| `ToolOutput.CoalesceAndRedact` | packages/agent-core/src/agent_core/_tool_turn.py:145-182 | For any redactor the result is the redacted, merged output when that fits, and otherwise its first entries as they are, the last one cut and marked, filling the limit; output cut before stays marked |
| `Utf8.PrefixDecodes` | packages/agent-core/src/agent_core/_tool_turn.py:116-117 | Cutting the encoded bytes and ignoring decoding errors gives the same prefix as counting widths |
| `Utf8.PrefixIsLongest` | packages/agent-core/src/agent_core/_tool_turn.py:116-117 | That prefix is the longest one within the byte limit |
| `Utf8.DecodeEncode` | packages/agent-core/src/agent_core/context.py:954-971 | Decoding inverts encoding |
| `Utf8.NextChunk` | packages/agent-core/src/agent_core/context.py:961-970 | The retry on decoding errors finds the longest chunk within the limit |
| `Utf8.Chunks` | packages/agent-core/src/agent_core/context.py:954-971 | Splitting succeeds exactly when every scalar fits the limit; the chunks spell the text, fit, and are as long as they can be |
| `ModelTurn.LargestPrefix` | packages/agent-core/src/agent_core/_model_turn.py:81-97 | The bisection finds the largest fitting prefix and always makes progress |
| `ModelTurn.TextChunks` | packages/agent-core/src/agent_core/_model_turn.py:72-98 | The chunks spell the text, each non-empty and within one event |
| `ModelTurn.ChunksAreFewest` | packages/agent-core/src/agent_core/_model_turn.py:72-98 | No other split into fitting pieces uses fewer |
| `ModelTurn.ConsumeCall` | packages/agent-core/src/agent_core/_model_turn.py:201-279 | A call event is announced once as received or rejected, and fails exactly on an argument or call limit |
| `ModelTurn.ConsumeText` | packages/agent-core/src/agent_core/_model_turn.py:161-199 | A text event fails exactly when the raw or the redacted total exceeds the limit; the text so far is what was emitted |
| `ModelTurn.ConsumeOne` | packages/agent-core/src/agent_core/_model_turn.py:138-279 | One event is refused exactly when it is bad, with the code for what is wrong with it |
| `ModelTurn.Consume` | packages/agent-core/src/agent_core/_model_turn.py:138-279 | The loop fails exactly at the first bad event, and otherwise holds what the events amount to and has announced exactly that |
| `ModelTurn.Run` | packages/agent-core/src/agent_core/_model_turn.py:119-343 | Exactly one result or failure, emitted last; a result exactly for a good stream, its text and calls those of the emitted events; a failure names the first bad event's fault or the way the stream fell short |
| `ModelTurn.GoodStreamLimits` | packages/agent-core/src/agent_core/_model_turn.py:138-343 | A good stream has one completion, its last event, and totals within every limit |
| `Conversation.RecentStart` | packages/agent-core/src/agent_core/context.py:773-786 | The window covers the requested suffix, orphans no tool message of a block-structured conversation, and extends only to the block it cut into |
| `Conversation.WindowHasNoOrphan` | packages/agent-core/src/agent_core/context.py:364-379 | Any window that does not start inside a block keeps every answer with its question |
| `Conversation.AnswersKeepBlocks` | packages/agent-core/src/agent_core/_tool_turn.py:630-640 | Answering declared calls keeps the blocks |
| `Context.JoinedBlocks` | packages/agent-core/src/agent_core/context.py:789-808 | Joining loses nothing: any subsequence of the joined contents is found in the result, in order |
| `Context.Bisect` | packages/agent-core/src/agent_core/context.py:620-639 | The bisection itself, for any trial: its result fits and the next candidate does not; when shorter candidates do no worse, it fails exactly if a candidate it reaches cannot be tried |
| `Context.FitSummary` | packages/agent-core/src/agent_core/context.py:613-640 | For every estimator what is returned fits and one character more does not. With the UTF-8 estimator it is the longest prefix that fits, empty exactly when no non-empty one does, and fitting fails exactly when the critical messages leave no room or a prefix it tries is too long for a fragment |
| `Context.ShortSummariesFit` | packages/agent-core/src/agent_core/context.py:613-640 | No prefix tried is too long if the whole summary would do as a fragment |
| `Context.ControlsOvershoot` | packages/agent-core/src/agent_core/context.py:613-640 | A summary of the largest allowed size for which fitting fails: its half fits, and three quarters of it are too long for a fragment |
| `Context.FullConversationIsCrowded` | packages/agent-core/src/agent_core/context.py:789-819 | As many critical messages as a request may have, none from the system, can be sent alone but not with a summary |
| `Context.Utf8SummaryIsLongest` | packages/agent-core/src/agent_core/context.py:247-258 | With the UTF-8 estimator a prefix that fits and cannot be extended by one character is the longest that fits |
| `Context.Utf8Cost` | packages/agent-core/src/agent_core/context.py:247-258 | A summary costs its own JSON bytes whatever stands beside it |
| `Context.Gather` | packages/agent-core/src/agent_core/context.py:494-505 | Contributions in order, refused exactly over the fragment limit |
| `Context.WithPrevious` | packages/agent-core/src/agent_core/context.py:506-534 | The previous summary comes first; refused exactly for a repeated identifier or an oversized summary |
| `Context.FreshSummary` | packages/agent-core/src/agent_core/context.py:560-600 | A non-empty summary fits beside the critical fragments; an empty one means nothing to say or not one character fitting |
| `Context.Compact` | packages/agent-core/src/agent_core/context.py:546-611 | A compacted build keeps the critical fragments, fits, and lists what it dropped; every reason for failing |
| `Context.Report` | packages/agent-core/src/agent_core/context.py:590-611 | The identifiers reported as dropped are exactly the noncritical ones |
| `Context.CriticalSurvive` | packages/agent-core/src/agent_core/context.py:493-611 | Every critical fragment's message survives in its original order |
| `Context.KeptAndDropped` | packages/agent-core/src/agent_core/context.py:590-611 | Apart from a new summary, kept and dropped partition the fragment identifiers |
| `Context.BuildContext` | packages/agent-core/src/agent_core/context.py:493-611 | Whenever a build returns, all of this holds, its estimate is within the budget, and it was compacted only when forced or over budget; every reason for failing |
| `PlanFragments.ItemHasSection` | packages/agent-core/src/agent_core/context.py:893-908 | Every plan item is carried, as critical exactly when it is unresolved |
| `PlanFragments.ChunkedFragments` | packages/agent-core/src/agent_core/context.py:928-951 | The fragments carry chunks that spell the text and fit the chunk limit; within the limit on a whole request none is refused for its size, whatever its text escapes to |
| `PlanFragments.TaskPlanFragments` | packages/agent-core/src/agent_core/context.py:862-916 | One run of fragments per section, in plan order, no two fragments with the same identifier, none refused for its size |
| `PlanFragments.SectionIdsDiffer` | packages/agent-core/src/agent_core/context.py:862-951 | No two sections of a plan, however many chunks they have, share a fragment identifier |
| `PlanFragments.UnresolvedItemIsRecoverable` | packages/agent-core/src/agent_core/context.py:862-971 | The whole text of every unresolved item can be put together from the critical fragments of any build |
| `PlanFragments.ChunkFragmentFits` | packages/agent-core/src/agent_core/context.py:928-951 | A chunk with its numbered header is within the fragment limit, for up to as many chunks as a request has bytes |
| `TaskPlan.Search.Visit` | packages/agent-core/src/agent_core/control.py:242-251 | A visit either settles the task and everything below it, no deeper than the tasks not yet open, or has found a cycle: the open calls loop, and the depth is that of the call that found it unless a finished branch went as deep |
| `TaskPlan.FindCycle` | packages/agent-core/src/agent_core/control.py:238-254 | A cycle is reported exactly when some task reaches itself. Without one the depth is at most the number of tasks; with one the search ends on a walk of distinct tasks that loops, and takes one call more than there are tasks exactly when that walk has all of them |
| `TaskPlan.MutualDependency` | packages/agent-core/src/agent_core/control.py:242-254 | Two tasks that depend on each other take three nested calls |
| `TaskPlan.StatusesConsistent` | packages/agent-core/src/agent_core/control.py:255-265 | Passes exactly when every dependency of an in-progress or completed task is completed |
| `TaskPlan.Validate` | packages/agent-core/src/agent_core/control.py:230-266 | Each verdict exactly under its condition |
| `TaskPlan.TransitiveDependenciesCompleted` | packages/agent-core/src/agent_core/control.py:255-265 | Everything an in-progress or completed task depends on, however indirectly, is completed |
| `TaskPlan.SomeTaskIsReady` | packages/agent-core/src/agent_core/control.py:238-266 | An accepted plan with unfinished work has an unfinished task whose dependencies are all completed |
| `AuditFile.LineFits` | packages/agent-core/src/agent_core/audit.py:17-51 | Every record an export can hold fits the line limit, whatever its fields escape to |
| `AuditFile.LinesOfRender` | packages/agent-core/src/agent_core/lifecycle_service.py:465-482 | Reading a written file line by line gives back the printed records |
| `AuditJson.FormatIsInjective` | packages/agent-core/src/agent_core/lifecycle_service.py:465-482 | No two records an export can hold print alike |
| `AuditJson.FormatSize` | packages/agent-core/src/agent_core/audit.py:17-51 | A printed record is within the size that the line limit allows for |
| `AuditJson.JsonCodecIsFaithful` | packages/agent-core/src/agent_core/lifecycle_service.py:465-482 | Compact JSON lines are a codec under which the writer and the verifier agree |
| `AuditFile.CheckLine` | packages/agent-core/src/agent_core/lifecycle_service.py:522-569 | A line is refused only if the file is not proper |
| `AuditFile.VerifyFile` | packages/agent-core/src/agent_core/lifecycle_service.py:485-579 | Accepts exactly the files with one header, in-scope entries in strictly increasing order, one trailer last, matching counts and times, within the caps, of the right size and digest |
| `AuditFile.ProperRange` | packages/agent-core/src/agent_core/lifecycle.py:157-188 | The claimed time range of an accepted file satisfies first <= last <= cutoff, and is empty exactly for no records |
| `AuditFile.ProperOrder` | packages/agent-core/src/agent_core/lifecycle_service.py:562-566 | Any two entries of an accepted file are in increasing (time, id) order |
| `AuditWriter.Writer.WriteJson` | packages/agent-core/src/agent_core/lifecycle_service.py:465-482 | The file is exactly the records written, and a write is refused exactly over the byte limit |
| `AuditWriter.Writer.WriteHeader` | packages/agent-core/src/agent_core/lifecycle_service.py:406-414 | The file holds the header alone |
| `AuditWriter.Writer.WriteEntry` | packages/agent-core/src/agent_core/lifecycle_service.py:416-443 | An entry is accepted exactly when the entries with it are ordered, in scope and within the record and byte limits |
| `AuditWriter.Writer.WriteEntries` | packages/agent-core/src/agent_core/lifecycle_service.py:416-443 | A batch is accepted exactly when all entries so far are acceptable |
| `AuditWriter.Writer.Finish` | packages/agent-core/src/agent_core/lifecycle_service.py:445-463 | One trailer with the count and the first and last times of what was written |
| `AuditWriter.WrittenIsProper` | packages/agent-core/src/agent_core/lifecycle_service.py:382-482 | Whatever was written, the file with the metadata built from it is one the verifier accepts |
| `AuditWriter.WriteAll` | packages/agent-core/src/agent_core/lifecycle_service.py:150-166 | Writing header, batches and trailer succeeds exactly when everything is ordered, in scope and within the limits |
| `AuditWriter.Export` | packages/agent-core/src/agent_core/lifecycle_service.py:150-187 | Valid metadata exists exactly when everything was written and the clock is not behind the cutoff, and then the verifier accepts the file |
| `Recovery.AggregatesAgreeWithScan` | scripts/recovery_verification.py:262-300 | A full scan accepts a log exactly when its sequence numbers are unique and count, minimum, maximum and next pass |
| `Recovery.DuplicatesFoolTheAggregates` | scripts/recovery_verification.py:262-300 | Without uniqueness a log with a gap passes |
| `Recovery.VerifyEventSequences` | scripts/recovery_verification.py:281-300 | Accepts exactly restores whose every log is 1..n with next n + 1 and no later epoch; counts all events |
| `Recovery.ReferenceTable.Add` | scripts/recovery_verification.py:410-426 | Accepts and files a candidate as specified, or changes nothing |
| `Recovery.ReferenceTable.Gather` | scripts/recovery_verification.py:303-407 | Succeeds exactly on evidence in range, consistent per key and about few enough objects, keeps an audit record wherever one exists, and files each object's bytes once |
| `Recovery.ReferenceTable.ReadReferences` | scripts/recovery_verification.py:303-407 | Succeeds exactly when, besides, the objects, each counted once however many tables mention it, are within the aggregate byte limit |
| `Recovery.ReferenceTable.TotalBytes` | scripts/recovery_verification.py:403-406 | The sum over the table is the bytes of everything filed |
| `Recovery.FileOne` | scripts/recovery_verification.py:410-426 | Comparing with what is filed decides agreement with all earlier candidates |
| `Artifacts.SplitJoin` | packages/agent-core/src/agent_core/artifacts.py:24-27 | Splitting on a separator undoes joining |
| `Artifacts.KeyIsInjective` | packages/agent-core/src/agent_core/artifacts.py:376-417 | The three key functions are injective with disjoint ranges, across execution epochs |
| `Artifacts.KeyIsValid` | packages/agent-core/src/agent_core/artifacts.py:24-38 | Each key is a valid object key exactly when it is not too long, which only an epoch of over a hundred digits can make it |
| `Artifacts.FromUri` | packages/agent-core/src/agent_core/artifacts.py:126-152 | Whatever is parsed is a valid reference |
| `Artifacts.FromUriToUri` | packages/agent-core/src/agent_core/artifacts.py:120-152 | Parsing the printed URI of a valid reference gives it back |
| `Worker.StepConserves` | apps/agent-worker/src/agent_worker/service.py:251-383 | Across every step free permits, permits held and permits lost add up |
| `Worker.StepKeepsOk` | apps/agent-worker/src/agent_worker/service.py:251-383 | Every step keeps what relates an attempt's phase, writer lease, heartbeat, permit and releases |
| `Worker.StepKeepsOperation` | apps/agent-worker/src/agent_worker/service.py:291-383 | A restore or execute task runs only in its phase, or was left behind by an attempt that was cancelled, timed out or found its heartbeat task cancelled |
| `Worker.StepKeepsSent` | apps/agent-worker/src/agent_worker/service.py:251-350 | What an attempt may still send of finish requests follows from its phase |
| `Worker.Reachable` | apps/agent-worker/src/agent_worker/service.py:251-383 | Every interleaving keeps those relations, the permit count and the fencing of the queue |
| `Worker.PermitsAreConservedExactly` | apps/agent-worker/src/agent_worker/service.py:284-290 | Free permits plus holders is constant exactly for runs without an event that loses one, each such event losing one |
| `Worker.ReleaseIsBounded` | apps/agent-worker/src/agent_worker/service.py:352-353 | Releasing a permit never exceeds the semaphore's bound |
| `Worker.SandboxesAreBounded` | apps/agent-worker/src/agent_worker/service.py:284-383 | Restore and execute tasks that an attempt waits for never outnumber the permits; those left behind are at most one per event in which a waiting attempt is cancelled, times out or finds its heartbeat task cancelled |
| `Worker.RestoreAndExecuteAreFenced` | apps/agent-worker/src/agent_worker/service.py:291-383 | Every running restore or execute has a writer lease that matches its run lease, and holds its permit with the lease unreleased unless its attempt left in one of those events |
| `Worker.AbandonedExactly` | apps/agent-worker/src/agent_worker/service.py:310-360 | A task is left behind exactly when its attempt was cancelled, timed out or found its heartbeat task cancelled while it ran |
| `Worker.OperationsExceedPermits` | apps/agent-worker/src/agent_worker/service.py:310-353 | A run with one permit and two executions at once |
| `Worker.OperationOutlivesLease` | apps/agent-worker/src/agent_worker/service.py:310-360 | A run that ends with the writer lease released and the execution still running |
| `Worker.CancelledHeartbeatDeserts` | apps/agent-worker/src/agent_worker/service.py:367-376 | A run in which nobody cancels the attempt and nothing times out, yet it ends with the lease released and the execution still running |
| `Worker.WriterIsReleasedExactly` | apps/agent-worker/src/agent_worker/service.py:351-360 | A finished attempt holds no permit and has released its validated writer lease once, unless its heartbeat ended with an error the clean-up does not swallow: then never |
| `Worker.FinishesAreFew` | apps/agent-worker/src/agent_worker/service.py:251-350 | Over every run an attempt sends at most two finish requests: its outcome, then one report only if that was not confirmed, and never a report on a lost or expired lease |
| `Worker.OneFinishPerLease` | packages/agent-core/src/agent_core/distributed.py:306-314 | With a queue that takes a finish from the owner only, at most one finish per lease is accepted, whatever replies are lost |
| `Worker.PermitIsLost` | apps/agent-worker/src/agent_worker/service.py:363-383 | A run in which the only permit is neither free nor held |
| `Worker.CancelledHeartbeatOrphans` | apps/agent-worker/src/agent_worker/service.py:363-376 | Such a run in which the only permit ends up with an acquire task nobody waits for |
| `Worker.WriterIsKept` | apps/agent-worker/src/agent_worker/service.py:354-360 | A run that ends with the writer lease unreleased |

## Left out

- PostgreSQL, Redis, the sandbox node agent, the gateway client and the rest of the agent loop: only the contracts the
  modelled code relies on appear, as parameters.
- Cancellation while `complete_tool`, `rollback` or checkpoint creation is awaited: only cancellation of the running tool
  is modelled.
- Printing a result as JSON never raises in the model, so neither does measuring it; the code's printer refuses integers
  of more than 4300 digits, after the tool has run.
- Read-only, control and interaction tools are taken not to touch the workspace, as their declared effect says.
- A redactor may do anything to a text except empty it where the project speaks of non-empty chunks; errors are not
  redacted in the model, which keeps only their codes.
- Report fields that do not feed back into a turn: the last checkpoint identifier and the updated task plan.
- The worker's `_process_owned` runs as interleaved steps on values, one per await, not as a method updating fields;
  registration, polling, draining and telemetry are not modelled, nor is lease-expiry arithmetic inside the queue.
- Compression input selection (`_bounded_compression_source`), the other context contributors and their priorities.
- Self-dependency and repeated dependencies within one task, refused before the graph check.
- Case folding of plan statuses: the folded status is an input.
- Spellings of a size that `int` accepts besides plain decimal digits, and the control characters URL splitting strips.
- The queries that produce the candidate references, and sorting the result by key.
- Finishing an audit writer twice, temporary files, file modes, symbolic links and syncing.
- Conversation.RecentStart: `recent` is at least one, as the constructor that owns it requires.
- Worker.OneFinishPerLease: fencing is the queue's own contract and enters as the rule for when a finish is accepted; what
  the worker itself contributes is `Worker.FinishesAreFew`.
- AuditJson.JsonCodecIsFaithful: identifiers and times are printed as fixed-width hexadecimal, not in the spellings of
  UUIDs and ISO 8601, and the order of the members is one fixed order.
- Tasks that only load or acquire and outlive their attempt, except for the permit an acquire task may still take; an
  acquire task that fails by itself.
