/** One atomic batch of tool calls on values: what a turn does to the recorded outcomes, the transcript, the workspace
    and the log of handler runs, for every behaviour of the coordinator and of the tools; and the laws of one turn. */
module ToolTurn {
  import opened Text
  import opened ToolOutput
  import opened ToolRun
  import opened Conversation
  import opened LoopEvents
  import opened Wrappers

  const OUTPUT_FRAME := 43   // {"tool_call_id":"","chunk":"","truncated":}

  datatype Effect = ReadOnly | WorkspaceMutation | Command | Interaction | ControlMutation

  datatype ApprovalMode = AutoApprove | RequireSensitive | RequireAll

  predicate SideEffecting(e: Effect) { e.WorkspaceMutation? || e.Command? }

  predicate RequiresApproval(mode: ApprovalMode, e: Effect) {
    e.Interaction? || mode.RequireAll? || (mode.RequireSensitive? && SideEffecting(e))
  }

  /** A proposed call; `hash` stands for its canonical argument hash. */
  datatype Call = Call(id: string, name: string, hash: string)

  datatype InvalidCall = InvalidCall(id: string, name: string, code: string)

  datatype Completion = Completed(result: Object) | Errored(code: string)

  datatype Outcome = Outcome(name: string, hash: Option<string>, completion: Completion)

  datatype Validation = Ready(effect: Effect) | Unusable(code: string)

  /** A call as prepared: a repeat of an earlier identifier carries no execution of its own. */
  datatype Prepared = Repeat | Fresh(validation: Validation)

  /** What a message carries besides its identifiers; `Said` keeps the whole calls an assistant message declares. */
  datatype Feedback = Said(calls: seq<Call>) | Answer(completion: Completion) | Correction(invalid: seq<InvalidCall>)

  type Msg = Message<Feedback>

  function ToolMsg(id: string, c: Completion): Msg { Message(Tool, id, [], Answer(c)) }

  datatype Kind =
    | ApprovalRequired(id: string)
    | CheckpointCreated(id: string)
    | ToolStarted(id: string)
    | ToolSaid(id: string, output: Output)
    | ToolCompleted(id: string, completion: Completion)
    | RunFailed(code: string)

  datatype Workspace = Workspace(files: map<string, Text>)

  /** What a returned checkpoint says; `sameRequest` when run, plan and summary are those of the request. */
  datatype Checkpoint = Checkpoint(callId: string, messageSequence: nat, sameRequest: bool)

  datatype Creation = Created(checkpoint: Checkpoint) | CreateRefused(code: string) | CreateCrashed

  datatype Finalization = Finalized(revision: Text) | FinalizeFailed

  /** Everything the coordinator and the tool may do around one call: `after` is the workspace the tool leaves,
      `wreck` whatever a failed rollback leaves. */
  datatype Behaviour = Behaviour(creation: Creation, stream: Stream, after: Workspace,
                                 finalization: Finalization, rollbackOk: bool, wreck: Workspace)

  datatype Config = Config(coordinator: bool, maxSemanticRetries: nat, limits: Limits, redaction: Redaction,
                           prepare: Call -> Validation)

  datatype Turn = Turn(calls: seq<Call>, invalid: seq<InvalidCall>, mode: ApprovalMode, decisions: map<string, bool>,
                       responses: map<string, Text>, retries: nat, behaviours: seq<Behaviour>)

  /** A finalised workspace: the call that produced it and the revision it was given. */
  datatype Commit = Commit(id: string, revision: Text, workspace: Workspace)

  datatype State = State(outcomes: map<string, Outcome>, transcript: seq<Msg>, workspace: Workspace,
                         ran: seq<string>, commits: seq<Commit>)

  /** What can leave a turn as an exception; `Unprepared` is the assertion that a new call has an execution. */
  datatype Cause = Cancellation | RestoreFailure | OutputRejection | Unprepared

  datatype Progress = Continue | Terminal | Escaped(cause: Cause)

  datatype TurnResult = TurnResult(state: State, kinds: seq<Kind>, progress: Progress, semanticFailures: nat)

  // ---------- Identifier conflicts ----------

  datatype Identity = Identity(name: string, hash: Option<string>)

  function CallIdentity(c: Call): Identity { Identity(c.name, Some(c.hash)) }

  function Recorded(o: Outcome): Identity { Identity(o.name, o.hash) }

  /** Call `i` agrees with the record and with every earlier call on what its identifier stands for. */
  predicate CallAgrees(calls: seq<Call>, outcomes: map<string, Outcome>, i: nat)
    requires i < |calls|
  {
    && (calls[i].id in outcomes ==> Recorded(outcomes[calls[i].id]) == CallIdentity(calls[i]))
    && forall j :: 0 <= j < i && calls[j].id == calls[i].id ==> CallIdentity(calls[j]) == CallIdentity(calls[i])
  }

  /** Invalid call `i` uses an identifier nobody has used. */
  predicate InvalidAgrees(calls: seq<Call>, invalid: seq<InvalidCall>, outcomes: map<string, Outcome>, i: nat)
    requires i < |invalid|
  {
    && invalid[i].id !in outcomes
    && (forall j :: 0 <= j < |calls| ==> calls[j].id != invalid[i].id)
    && (forall j :: 0 <= j < i ==> invalid[j].id != invalid[i].id)
  }

  ghost predicate Consistent(calls: seq<Call>, invalid: seq<InvalidCall>, outcomes: map<string, Outcome>) {
    && (forall i :: 0 <= i < |calls| ==> CallAgrees(calls, outcomes, i))
    && (forall i :: 0 <= i < |invalid| ==> InvalidAgrees(calls, invalid, outcomes, i))
  }

  // ---------- Preparation and approval ----------

  predicate Repeats(calls: seq<Call>, outcomes: map<string, Outcome>, i: nat)
    requires i < |calls|
  {
    calls[i].id in outcomes || exists j :: 0 <= j < i && calls[j].id == calls[i].id
  }

  function Preparation(calls: seq<Call>, outcomes: map<string, Outcome>, prepare: Call -> Validation, i: nat): Prepared
    requires i < |calls|
  {
    if Repeats(calls, outcomes, i) then Repeat else Fresh(prepare(calls[i]))
  }

  predicate UnusableAt(calls: seq<Call>, outcomes: map<string, Outcome>, prepare: Call -> Validation, i: nat)
    requires i < |calls|
  {
    var p := Preparation(calls, outcomes, prepare, i);
    p.Fresh? && p.validation.Unusable?
  }

  predicate Valid(turn: Turn, outcomes: map<string, Outcome>, prepare: Call -> Validation) {
    turn.invalid == [] && forall i :: 0 <= i < |turn.calls| ==> !UnusableAt(turn.calls, outcomes, prepare, i)
  }

  /** Call `i` needs a decision nobody has made. */
  predicate AwaitsAt(turn: Turn, outcomes: map<string, Outcome>, prepare: Call -> Validation, i: nat)
    requires i < |turn.calls|
  {
    var p := Preparation(turn.calls, outcomes, prepare, i);
    && p.Fresh? && p.validation.Ready? && RequiresApproval(turn.mode, p.validation.effect)
    && turn.calls[i].id !in turn.decisions
  }

  /** The approval requests of the first `n` calls, in call order. */
  function Awaiting(turn: Turn, outcomes: map<string, Outcome>, prepare: Call -> Validation, n: nat): seq<Kind>
    requires n <= |turn.calls|
  {
    if n == 0 then []
    else Awaiting(turn, outcomes, prepare, n - 1)
         + if AwaitsAt(turn, outcomes, prepare, n - 1) then [ApprovalRequired(turn.calls[n - 1].id)] else []
  }

  // ---------- One call ----------

  function Record(s: State, c: Call, answer: Completion): State {
    s.(outcomes := s.outcomes[c.id := Outcome(c.name, Some(c.hash), answer)],
       transcript := s.transcript + [ToolMsg(c.id, answer)])
  }

  /** Why the pre-tool checkpoint cannot be had, if it cannot. */
  function CreateFailure(cfg: Config, id: string, messages: nat, b: Behaviour): Option<string> {
    if !cfg.coordinator then Some("checkpoint_required")
    else match b.creation
         case CreateRefused(code) => Some(code)
         case CreateCrashed => Some("checkpoint_create_failed")
         case Created(c) =>
           if c == Checkpoint(id, messages, true) then None else Some("checkpoint_contract_invalid")
  }

  /** The event that would report this piece of output is within the payload limit. */
  predicate Reports(id: string, o: Output) {
    && o.chunk != []
    && OUTPUT_FRAME + Weight(JsonBytes, Literal(id)) + Weight(JsonBytes, o.chunk) + (if o.truncated then 4 else 5)
       <= MAX_EVENT_PAYLOAD_BYTES
  }

  predicate Reportable(id: string, run: RunResult) {
    run.CancelledRun? || forall i :: 0 <= i < |run.output| ==> Reports(id, run.output[i])
  }

  datatype Ending = Answered(completion: Completion) | Stopped(code: string) | Raised(cause: Cause)

  function WithRevision(result: Object, revision: Text): Object { Set(result, REVISION_KEY, Str(revision)) }

  /** How a started call ends. */
  function End(id: string, effect: Effect, run: RunResult, b: Behaviour): Ending {
    var restored := b.rollbackOk;
    if run.CancelledRun? then Raised(if SideEffecting(effect) && !restored then RestoreFailure else Cancellation)
    else if !Reportable(id, run) then Raised(OutputRejection)
    else if !SideEffecting(effect) then Answered(if run.Ran? then Completed(run.result) else Errored(run.code))
    else if run.Failed? then (if restored then Answered(Errored(run.code)) else Stopped("checkpoint_restore_failed"))
    else if b.finalization.Finalized? && ValidRevision(b.finalization.revision) then
      Answered(Completed(WithRevision(run.result, b.finalization.revision)))
    else Stopped(if restored then "checkpoint_finalize_failed" else "checkpoint_restore_failed")
  }

  /** The workspace it leaves. Only side-effecting tools touch it. */
  function Left(id: string, effect: Effect, before: Workspace, run: RunResult, b: Behaviour): Workspace {
    if !SideEffecting(effect) then before
    else if End(id, effect, run, b) == Raised(OutputRejection) then b.after
    else if End(id, effect, run, b).Answered? && run.Ran? then b.after
    else if b.rollbackOk then before else b.wreck
  }

  function OutputKinds(id: string, output: seq<Output>): (k: seq<Kind>)
    ensures |k| == |output|
  {
    seq(|output|, i requires 0 <= i < |output| => ToolSaid(id, output[i]))
  }

  function Opening(id: string, effect: Effect): seq<Kind> {
    (if SideEffecting(effect) then [CheckpointCreated(id)] else []) + [ToolStarted(id)]
  }

  /** Apply a call's ending: only a recorded completion leaves a trace in the record. */
  function Concluded(s: State, c: Call, effect: Effect, end: Ending, told: seq<Kind>, b: Behaviour): TurnResult {
    match end
    case Raised(cause) => TurnResult(s, [], Escaped(cause), 0)
    case Stopped(code) => TurnResult(s, told + [ToolCompleted(c.id, Errored(code)), RunFailed(code)], Terminal, 0)
    case Answered(answer) =>
      var kept := if SideEffecting(effect) && answer.Completed? && b.finalization.Finalized?
                  then s.(commits := s.commits + [Commit(c.id, b.finalization.revision, b.after)]) else s;
      TurnResult(Record(kept, c, answer), told + [ToolCompleted(c.id, answer)], Continue, 0)
  }

  /** A started call: the handler has run, whatever comes of it. */
  function Perform(s: State, c: Call, effect: Effect, run: RunResult, b: Behaviour): TurnResult {
    Concluded(s.(workspace := Left(c.id, effect, s.workspace, run, b), ran := s.ran + [c.id]), c, effect,
              End(c.id, effect, run, b),
              Opening(c.id, effect) + (if run.CancelledRun? then [] else OutputKinds(c.id, run.output)), b)
  }

  function Answering(s: State, c: Call, answer: Completion): TurnResult {
    TurnResult(Record(s, c, answer), [ToolCompleted(c.id, answer)], Continue, 0)
  }

  function Interact(turn: Turn, id: string): Completion {
    if id in turn.responses then Completed([Member(Literal("response"), Str(turn.responses[id]))])
    else Errored("interaction_response_missing")
  }

  /** One call of a turn that passed every gate. */
  function Step(s: State, c: Call, p: Prepared, turn: Turn, cfg: Config, run: RunResult, b: Behaviour): TurnResult {
    if c.id in s.outcomes then
      var prior := s.outcomes[c.id].completion;
      TurnResult(s.(transcript := s.transcript + [ToolMsg(c.id, prior)]), [ToolCompleted(c.id, prior)], Continue, 0)
    else if c.id in turn.decisions && !turn.decisions[c.id] then Answering(s, c, Errored("approval_rejected"))
    else if p.Repeat? || p.validation.Unusable? then TurnResult(s, [], Escaped(Unprepared), 0)
    else if p.validation.effect.Interaction? then Answering(s, c, Interact(turn, c.id))
    else
      var refused := if SideEffecting(p.validation.effect) then CreateFailure(cfg, c.id, |s.transcript|, b) else None;
      if refused.Some? then
        TurnResult(s, [ToolCompleted(c.id, Errored(refused.value)), RunFailed(refused.value)], Terminal, 0)
      else Perform(s, c, p.validation.effect, run, b)
  }

  // ---------- A whole turn ----------

  predicate Fitted(turn: Turn, runs: seq<RunResult>) { |turn.behaviours| == |runs| == |turn.calls| }

  function Then(a: TurnResult, b: TurnResult): TurnResult { b.(kinds := a.kinds + b.kinds) }

  /** Take `n` steps, stopping where one does not continue. */
  function Steps(s: State, step: (State, nat) -> TurnResult, n: nat): TurnResult {
    if n == 0 then TurnResult(s, [], Continue, 0)
    else
      var done := Steps(s, step, n - 1);
      if !done.progress.Continue? then done else Then(done, step(done.state, n - 1))
  }

  /** The steps of a turn, prepared against the outcomes it started from. */
  function TurnStep(turn: Turn, cfg: Config, runs: seq<RunResult>, outcomes: map<string, Outcome>)
    : (State, nat) -> TurnResult
    requires Fitted(turn, runs)
  {
    (s: State, i: nat) =>
      if i >= |turn.calls| then TurnResult(s, [], Continue, 0)
      else Step(s, turn.calls[i], Preparation(turn.calls, outcomes, cfg.prepare, i), turn, cfg, runs[i],
                turn.behaviours[i])
  }

  /** Identifier of the first of the first `n` calls that disagrees. */
  function CallConflict(calls: seq<Call>, outcomes: map<string, Outcome>, n: nat): (r: Option<string>)
    requires n <= |calls|
    ensures r.None? <==> forall i :: 0 <= i < n ==> CallAgrees(calls, outcomes, i)
  {
    if n == 0 then None
    else
      var earlier := CallConflict(calls, outcomes, n - 1);
      if earlier.Some? then earlier else if CallAgrees(calls, outcomes, n - 1) then None else Some(calls[n - 1].id)
  }

  function InvalidConflict(calls: seq<Call>, invalid: seq<InvalidCall>, outcomes: map<string, Outcome>, n: nat)
    : (r: Option<string>)
    requires n <= |invalid|
    ensures r.None? <==> forall i :: 0 <= i < n ==> InvalidAgrees(calls, invalid, outcomes, i)
  {
    if n == 0 then None
    else
      var earlier := InvalidConflict(calls, invalid, outcomes, n - 1);
      if earlier.Some? then earlier
      else if InvalidAgrees(calls, invalid, outcomes, n - 1) then None else Some(invalid[n - 1].id)
  }

  function Conflict(calls: seq<Call>, invalid: seq<InvalidCall>, outcomes: map<string, Outcome>): (r: Option<string>)
    ensures r.None? <==> Consistent(calls, invalid, outcomes)
  {
    var first := CallConflict(calls, outcomes, |calls|);
    if first.Some? then first else InvalidConflict(calls, invalid, outcomes, |invalid|)
  }

  function CallRefusals(turn: Turn, codes: seq<string>): (k: seq<Kind>)
    requires |codes| == |turn.calls|
    ensures |k| == |codes|
  {
    seq(|codes|, i requires 0 <= i < |codes| => ToolCompleted(turn.calls[i].id, Errored(codes[i])))
  }

  function InvalidRefusals(turn: Turn, codes: seq<string>): (k: seq<Kind>)
    requires |codes| == |turn.invalid|
    ensures |k| == |codes|
  {
    seq(|codes|, i requires 0 <= i < |codes| => ToolCompleted(turn.invalid[i].id, Errored(codes[i])))
  }

  /** Failed completions for every call of a rejected turn, with the given error codes. */
  function RefusedKinds(turn: Turn, codes: seq<string>, invalidCodes: seq<string>): seq<Kind>
    requires |codes| == |turn.calls| && |invalidCodes| == |turn.invalid|
  {
    CallRefusals(turn, codes) + InvalidRefusals(turn, invalidCodes)
  }

  function CallAnswers(turn: Turn, codes: seq<string>): (m: seq<Msg>)
    requires |codes| == |turn.calls|
    ensures |m| == |codes|
  {
    seq(|codes|, i requires 0 <= i < |codes| => ToolMsg(turn.calls[i].id, Errored(codes[i])))
  }

  /** One tool message per call, and one correction for the calls that could not even be parsed. */
  function RefusedMessages(turn: Turn, codes: seq<string>): seq<Msg>
    requires |codes| == |turn.calls|
  {
    CallAnswers(turn, codes) + if turn.invalid == [] then [] else [Message(User, "", [], Correction(turn.invalid))]
  }

  function ConflictCodes(turn: Turn, conflict: string): (codes: seq<string>)
    ensures |codes| == |turn.calls|
  {
    seq(|turn.calls|, i requires 0 <= i < |turn.calls| =>
          if turn.calls[i].id == conflict then "tool_call_id_conflict" else "tool_turn_rejected")
  }

  function RejectConflicting(s: State, turn: Turn, conflict: string): TurnResult {
    var codes := ConflictCodes(turn, conflict);
    var invalidCodes := seq(|turn.invalid|, i requires 0 <= i < |turn.invalid| =>
                              if turn.invalid[i].id == conflict then "tool_call_id_conflict" else turn.invalid[i].code);
    TurnResult(s.(transcript := s.transcript + RefusedMessages(turn, codes)),
               RefusedKinds(turn, codes, invalidCodes) + [RunFailed("tool_call_id_conflict")], Terminal, 0)
  }

  function RefusedCode(turn: Turn, outcomes: map<string, Outcome>, prepare: Call -> Validation, i: nat): string
    requires i < |turn.calls|
  {
    var p := Preparation(turn.calls, outcomes, prepare, i);
    if p.Fresh? && p.validation.Unusable? then p.validation.code else "tool_turn_rejected"
  }

  function InvalidCodes(turn: Turn, outcomes: map<string, Outcome>, prepare: Call -> Validation): (codes: seq<string>)
    ensures |codes| == |turn.calls|
  {
    seq(|turn.calls|, i requires 0 <= i < |turn.calls| => RefusedCode(turn, outcomes, prepare, i))
  }

  /** Failures recorded for the first `n` calls; an identifier already recorded keeps its outcome. */
  function CallDefaults(outcomes: map<string, Outcome>, turn: Turn, codes: seq<string>, n: nat): (m: map<string, Outcome>)
    requires |codes| == |turn.calls| && n <= |codes|
    ensures forall id :: id in outcomes ==> id in m && m[id] == outcomes[id]
    ensures forall i :: 0 <= i < n ==> turn.calls[i].id in m
  {
    if n == 0 then outcomes
    else
      var m, c := CallDefaults(outcomes, turn, codes, n - 1), turn.calls[n - 1];
      if c.id in m then m else m[c.id := Outcome(c.name, Some(c.hash), Errored(codes[n - 1]))]
  }

  function InvalidDefaults(outcomes: map<string, Outcome>, turn: Turn, n: nat): (m: map<string, Outcome>)
    requires n <= |turn.invalid|
    ensures forall id :: id in outcomes ==> id in m && m[id] == outcomes[id]
    ensures forall i :: 0 <= i < n ==> turn.invalid[i].id in m
  {
    if n == 0 then outcomes
    else
      var m, c := InvalidDefaults(outcomes, turn, n - 1), turn.invalid[n - 1];
      if c.id in m then m else m[c.id := Outcome(c.name, None, Errored(c.code))]
  }

  function RejectInvalid(s: State, turn: Turn, cfg: Config): TurnResult {
    var codes := InvalidCodes(turn, s.outcomes, cfg.prepare);
    var invalidCodes := seq(|turn.invalid|, i requires 0 <= i < |turn.invalid| => turn.invalid[i].code);
    var kinds := RefusedKinds(turn, codes, invalidCodes);
    var recorded := InvalidDefaults(CallDefaults(s.outcomes, turn, codes, |codes|), turn, |turn.invalid|);
    var terminal := turn.retries + 1 > cfg.maxSemanticRetries;
    TurnResult(s.(outcomes := recorded, transcript := s.transcript + RefusedMessages(turn, codes)),
               kinds + (if terminal then [RunFailed("semantic_retry_limit")] else []),
               if terminal then Terminal else Continue, 1)
  }

  /** A turn without conflicts or invalid calls: ask for the approvals it lacks, or take its steps. */
  function Proceed(s: State, turn: Turn, cfg: Config, runs: seq<RunResult>): TurnResult
    requires Fitted(turn, runs)
  {
    var awaiting := Awaiting(turn, s.outcomes, cfg.prepare, |turn.calls|);
    if awaiting != [] then TurnResult(s, awaiting, Terminal, 0)
    else Steps(s, TurnStep(turn, cfg, runs, s.outcomes), |turn.calls|)
  }

  function Execute(s: State, turn: Turn, cfg: Config, runs: seq<RunResult>): TurnResult
    requires Fitted(turn, runs)
  {
    var conflict := Conflict(turn.calls, turn.invalid, s.outcomes);
    if conflict.Some? then RejectConflicting(s, turn, conflict.value)
    else if !Valid(turn, s.outcomes, cfg.prepare) then RejectInvalid(s, turn, cfg)
    else Proceed(s, turn, cfg, runs)
  }

  // ---------- Laws of one turn ----------

  predicate Approves(turn: Turn, effect: Effect, id: string) {
    RequiresApproval(turn.mode, effect) ==> id in turn.decisions && turn.decisions[id]
  }

  predicate Distinct(ids: seq<string>) { forall i, j :: 0 <= i < j < |ids| ==> ids[i] != ids[j] }

  /** What a turn adds to the log: fresh identifiers, each once, each recorded unless the turn broke off at it. */
  ghost predicate RunsOnce(s: State, r: TurnResult) {
    && s.ran <= r.state.ran
    && var added := r.state.ran[|s.ran|..];
    && Distinct(added)
    && (forall k :: 0 <= k < |added| ==> added[k] !in s.outcomes)
    && (forall k :: 0 <= k < |added| - (if r.progress.Continue? then 0 else 1) ==> added[k] in r.state.outcomes)
  }

  /** What one step may do: run its own handler if the call is not recorded, record the call, answer it from the record. */
  ghost predicate Moves(s: State, c: Call, turn: Turn, p: Prepared, r: TurnResult) {
    && (r.state.ran == s.ran
        || (r.state.ran == s.ran + [c.id] && c.id !in s.outcomes
            && p.Fresh? && p.validation.Ready? && Approves(turn, p.validation.effect, c.id)))
    && (forall id :: id in s.outcomes ==> id in r.state.outcomes && r.state.outcomes[id] == s.outcomes[id])
    && (r.progress.Continue? ==>
          && c.id in r.state.outcomes
          && r.state.transcript == s.transcript + [ToolMsg(c.id, r.state.outcomes[c.id].completion)])
    && (!r.progress.Continue? ==> r.state.transcript == s.transcript)
    && (r.progress == Escaped(Unprepared) ==> c.id !in s.outcomes && !(p.Fresh? && p.validation.Ready?))
  }

  lemma PerformMoves(s: State, c: Call, effect: Effect, turn: Turn, run: RunResult, b: Behaviour)
    requires c.id !in s.outcomes && Approves(turn, effect, c.id)
    ensures Moves(s, c, turn, Fresh(Ready(effect)), Perform(s, c, effect, run, b))
  {
  }

  /** No handler of a call that needs approval runs without one. */
  lemma StepMoves(s: State, c: Call, p: Prepared, turn: Turn, cfg: Config, run: RunResult, b: Behaviour)
    requires p.Fresh? && p.validation.Ready? && RequiresApproval(turn.mode, p.validation.effect) ==> c.id in turn.decisions
    ensures Moves(s, c, turn, p, Step(s, c, p, turn, cfg, run, b))
  {
    var r := Step(s, c, p, turn, cfg, run, b);
    if c.id !in s.outcomes && p.Fresh? && p.validation.Ready? && Approves(turn, p.validation.effect, c.id) {
      PerformMoves(s, c, p.validation.effect, turn, run, b);
    }
  }

  /** Nothing awaits a decision exactly when every call that needs one has one. */
  lemma {:induction false} NothingAwaits(turn: Turn, outcomes: map<string, Outcome>, prepare: Call -> Validation, n: nat)
    requires n <= |turn.calls|
    ensures Awaiting(turn, outcomes, prepare, n) == [] <==> forall i :: 0 <= i < n ==> !AwaitsAt(turn, outcomes, prepare, i)
  {
    if n > 0 { NothingAwaits(turn, outcomes, prepare, n - 1); }
  }

  ghost predicate Passes(turn: Turn, outcomes: map<string, Outcome>, prepare: Call -> Validation) {
    && Valid(turn, outcomes, prepare)
    && forall i :: 0 <= i < |turn.calls| ==> !AwaitsAt(turn, outcomes, prepare, i)
  }

  ghost predicate Lawful(turn: Turn, prepared: seq<Prepared>, step: (State, nat) -> TurnResult) {
    |prepared| == |turn.calls| &&
    forall s, i :: 0 <= i < |prepared| ==> Moves(s, turn.calls[i], turn, prepared[i], step(s, i))
  }

  ghost function Preparations(turn: Turn, outcomes: map<string, Outcome>, prepare: Call -> Validation): seq<Prepared> {
    seq(|turn.calls|, i requires 0 <= i < |turn.calls| => Preparation(turn.calls, outcomes, prepare, i))
  }

  lemma TurnStepIsLawful(turn: Turn, cfg: Config, runs: seq<RunResult>, outcomes: map<string, Outcome>)
    requires Fitted(turn, runs) && Passes(turn, outcomes, cfg.prepare)
    ensures Lawful(turn, Preparations(turn, outcomes, cfg.prepare), TurnStep(turn, cfg, runs, outcomes))
  {
    var prepared, step := Preparations(turn, outcomes, cfg.prepare), TurnStep(turn, cfg, runs, outcomes);
    forall s: State, i | 0 <= i < |prepared| ensures Moves(s, turn.calls[i], turn, prepared[i], step(s, i)) {
      assert !AwaitsAt(turn, outcomes, cfg.prepare, i);
      StepMoves(s, turn.calls[i], prepared[i], turn, cfg, runs[i], turn.behaviours[i]);
    }
  }

  lemma {:induction false} StepsRunOnce(s: State, turn: Turn, prepared: seq<Prepared>,
                                        step: (State, nat) -> TurnResult, n: nat)
    requires Lawful(turn, prepared, step) && n <= |turn.calls|
    ensures var r := Steps(s, step, n);
            && RunsOnce(s, r)
            && forall id :: id in s.outcomes ==> id in r.state.outcomes && r.state.outcomes[id] == s.outcomes[id]
  {
    if n > 0 {
      StepsRunOnce(s, turn, prepared, step, n - 1);
      var done := Steps(s, step, n - 1);
      var r := step(done.state, n - 1);
      assert Moves(done.state, turn.calls[n - 1], turn, prepared[n - 1], r);
      var before, added := done.state.ran[|s.ran|..], r.state.ran[|s.ran|..];
      assert added == before || added == before + [turn.calls[n - 1].id];
    }
  }

  /** A recorded outcome never changes, and no identifier is run again. */
  lemma TurnRunsOnce(s: State, turn: Turn, cfg: Config, runs: seq<RunResult>)
    requires Fitted(turn, runs)
    ensures var r := Execute(s, turn, cfg, runs);
            && RunsOnce(s, r)
            && forall id :: id in s.outcomes ==> id in r.state.outcomes && r.state.outcomes[id] == s.outcomes[id]
  {
    NothingAwaits(turn, s.outcomes, cfg.prepare, |turn.calls|);
    if Passes(turn, s.outcomes, cfg.prepare) {
      TurnStepIsLawful(turn, cfg, runs, s.outcomes);
      StepsRunOnce(s, turn, Preparations(turn, s.outcomes, cfg.prepare), TurnStep(turn, cfg, runs, s.outcomes),
                   |turn.calls|);
    }
  }

  // ---------- What a turn answers ----------

  /** The transcript grew by one tool message per call reached, in call order, each saying what is now recorded. */
  ghost predicate Answers(s: State, calls: seq<Call>, n: nat, r: TurnResult)
    requires n <= |calls|
  {
    var m := |r.state.transcript| - |s.transcript|;
    && s.transcript <= r.state.transcript
    && (if r.progress.Continue? then m == n else m < n)
    && forall k :: 0 <= k < m ==> AnswerOf(r.state, calls[k].id, r.state.transcript[|s.transcript| + k])
  }

  predicate AnswerOf(s: State, id: string, m: Msg) { id in s.outcomes && m == ToolMsg(id, s.outcomes[id].completion) }

  lemma {:induction false} StepsAnswer(s: State, turn: Turn, prepared: seq<Prepared>,
                                       step: (State, nat) -> TurnResult, n: nat)
    requires Lawful(turn, prepared, step) && n <= |turn.calls|
    ensures Answers(s, turn.calls, n, Steps(s, step, n))
  {
    if n > 0 {
      StepsAnswer(s, turn, prepared, step, n - 1);
      var done := Steps(s, step, n - 1);
      if done.progress.Continue? {
        var r := step(done.state, n - 1);
        assert Moves(done.state, turn.calls[n - 1], turn, prepared[n - 1], r);
        forall k | 0 <= k < |r.state.transcript| - |s.transcript|
          ensures AnswerOf(r.state, turn.calls[k].id, r.state.transcript[|s.transcript| + k])
        {
          if k < n - 1 { assert AnswerOf(done.state, turn.calls[k].id, done.state.transcript[|s.transcript| + k]); }
        }
      }
    }
  }

  /** The assertion that a new call has a prepared execution never fails. */
  lemma {:induction false} StepsArePrepared(s: State, turn: Turn, prepare: Call -> Validation,
                                            step: (State, nat) -> TurnResult, n: nat)
    requires Valid(turn, s.outcomes, prepare) && n <= |turn.calls|
    requires Lawful(turn, Preparations(turn, s.outcomes, prepare), step)
    ensures var r := Steps(s, step, n);
            && r.progress != Escaped(Unprepared)
            && (r.progress.Continue? ==> forall i :: 0 <= i < n ==> turn.calls[i].id in r.state.outcomes)
  {
    if n > 0 {
      var i, prepared := n - 1, Preparations(turn, s.outcomes, prepare);
      StepsArePrepared(s, turn, prepare, step, i);
      StepsRunOnce(s, turn, prepared, step, i);
      assert Moves(Steps(s, step, i).state, turn.calls[i], turn, prepared[i], step(Steps(s, step, i).state, i));
      assert !UnusableAt(turn.calls, s.outcomes, prepare, i);
    }
  }

  /** A turn with a conflicting, invalid or unapproved call runs nothing and touches nothing but the conversation. */
  lemma GatedTurnRunsNothing(s: State, turn: Turn, cfg: Config, runs: seq<RunResult>)
    requires Fitted(turn, runs)
    requires !Consistent(turn.calls, turn.invalid, s.outcomes) || !Passes(turn, s.outcomes, cfg.prepare)
    ensures var r := Execute(s, turn, cfg, runs);
            && r.state.ran == s.ran && r.state.workspace == s.workspace && r.state.commits == s.commits
            && (r.progress.Continue? ==> !Valid(turn, s.outcomes, cfg.prepare))
            && ((Consistent(turn.calls, turn.invalid, s.outcomes) && !Valid(turn, s.outcomes, cfg.prepare))
                || r.state.outcomes == s.outcomes)
  {
    NothingAwaits(turn, s.outcomes, cfg.prepare, |turn.calls|);
  }

  /** A turn that passes every gate is exactly its steps, answers what the record says, and is never unprepared. */
  lemma OpenTurnAnswers(s: State, turn: Turn, cfg: Config, runs: seq<RunResult>)
    requires Fitted(turn, runs) && Consistent(turn.calls, turn.invalid, s.outcomes)
    requires Passes(turn, s.outcomes, cfg.prepare)
    ensures var r := Execute(s, turn, cfg, runs);
            && r == Steps(s, TurnStep(turn, cfg, runs, s.outcomes), |turn.calls|)
            && Answers(s, turn.calls, |turn.calls|, r) && r.progress != Escaped(Unprepared)
  {
    NothingAwaits(turn, s.outcomes, cfg.prepare, |turn.calls|);
    var step := TurnStep(turn, cfg, runs, s.outcomes);
    TurnStepIsLawful(turn, cfg, runs, s.outcomes);
    StepsAnswer(s, turn, Preparations(turn, s.outcomes, cfg.prepare), step, |turn.calls|);
    StepsArePrepared(s, turn, cfg.prepare, step, |turn.calls|);
  }

  /** One tool message per call, in call order, then at most one message that is not a tool message. */
  ghost predicate OneEach(before: seq<Msg>, calls: seq<Call>, after: seq<Msg>) {
    var at := |before|;
    && before <= after && at + |calls| <= |after| <= at + |calls| + 1
    && (forall k :: 0 <= k < |calls| ==> Replies(after[at + k], calls[k]))
    && (|after| > at + |calls| ==> after[at + |calls|].role.User?)
  }

  predicate Replies(m: Msg, c: Call) { m.role.Tool? && m.callId == c.id }

  lemma RefusedOneEach(before: seq<Msg>, turn: Turn, codes: seq<string>)
    requires |codes| == |turn.calls|
    ensures OneEach(before, turn.calls, before + RefusedMessages(turn, codes))
  {
    var added := RefusedMessages(turn, codes);
    forall k | 0 <= k < |turn.calls| ensures Replies((before + added)[|before| + k], turn.calls[k]) {
      assert added[k] == ToolMsg(turn.calls[k].id, Errored(codes[k]));
    }
    if turn.invalid != [] { assert (before + added)[|before| + |turn.calls|] == added[|turn.calls|]; }
  }

  lemma AnswersOneEach(s: State, calls: seq<Call>, r: TurnResult)
    requires Answers(s, calls, |calls|, r) && r.progress.Continue?
    ensures OneEach(s.transcript, calls, r.state.transcript)
  {
    forall k | 0 <= k < |calls| ensures Replies(r.state.transcript[|s.transcript| + k], calls[k]) {
      assert AnswerOf(r.state, calls[k].id, r.state.transcript[|s.transcript| + k]);
    }
  }

  /** Every turn that does not end the run answers each proposed call once and in order. */
  lemma TurnAnswersEveryCall(s: State, turn: Turn, cfg: Config, runs: seq<RunResult>)
    requires Fitted(turn, runs) && Execute(s, turn, cfg, runs).progress.Continue?
    ensures OneEach(s.transcript, turn.calls, Execute(s, turn, cfg, runs).state.transcript)
  {
    if Consistent(turn.calls, turn.invalid, s.outcomes) && Passes(turn, s.outcomes, cfg.prepare) {
      OpenTurnAnswers(s, turn, cfg, runs);
      AnswersOneEach(s, turn.calls, Execute(s, turn, cfg, runs));
    } else {
      GatedTurnRunsNothing(s, turn, cfg, runs);
      RefusedOneEach(s.transcript, turn, InvalidCodes(turn, s.outcomes, cfg.prepare));
    }
  }

  // ---------- Workspace ----------

  function Current(base: Workspace, commits: seq<Commit>): Workspace {
    if commits == [] then base else commits[|commits| - 1].workspace
  }

  predicate Carries(outcomes: map<string, Outcome>, c: Commit) {
    && c.id in outcomes && outcomes[c.id].completion.Completed?
    && Lookup(outcomes[c.id].completion.result, REVISION_KEY) == Some(Str(c.revision))
  }

  /** The workspace is exactly the last finalised one, and every finalised one is a completed outcome carrying its
      revision. */
  ghost predicate Transactional(base: Workspace, s: State) {
    && s.workspace == Current(base, s.commits)
    && forall k :: 0 <= k < |s.commits| ==> Carries(s.outcomes, s.commits[k])
  }

  /** Nothing escaped for want of a rollback, or because its output could not be reported. */
  predicate Intact(r: TurnResult) {
    && r.progress != Escaped(RestoreFailure) && r.progress != Escaped(OutputRejection)
    && RunFailed("checkpoint_restore_failed") !in r.kinds
  }

  lemma PerformIsTransactional(base: Workspace, s: State, c: Call, effect: Effect, run: RunResult, b: Behaviour)
    requires Transactional(base, s) && c.id !in s.outcomes && Intact(Perform(s, c, effect, run, b))
    ensures Transactional(base, Perform(s, c, effect, run, b).state)
  {
    var r, end := Perform(s, c, effect, run, b), End(c.id, effect, run, b);
    if end.Stopped? {
      assert r.kinds[|r.kinds| - 1] == RunFailed(end.code);
    } else if end.Answered? && run.Ran? && b.finalization.Finalized? {
      SetLookup(run.result, REVISION_KEY, Str(b.finalization.revision), REVISION_KEY);
    }
  }

  /** All or nothing: an intact side-effecting call either left the workspace as it was, failing or being cancelled, or
      left the finalised one under a recorded and reported completion that carries its revision. */
  lemma SideEffectIsAllOrNothing(s: State, c: Call, effect: Effect, run: RunResult, b: Behaviour)
    requires SideEffecting(effect) && Intact(Perform(s, c, effect, run, b))
    ensures var r := Perform(s, c, effect, run, b);
            || (r.state.workspace == s.workspace && r.state.commits == s.commits
                && (r.progress.Escaped? || FailureReported(c.id, r.kinds)))
            || (r.state.workspace == b.after && r.progress.Continue? && b.finalization.Finalized?
                && Carries(r.state.outcomes, Commit(c.id, b.finalization.revision, b.after))
                && r.kinds[|r.kinds| - 1] == ToolCompleted(c.id, r.state.outcomes[c.id].completion))
  {
    var r, end := Perform(s, c, effect, run, b), End(c.id, effect, run, b);
    if end.Stopped? {
      assert r.kinds[|r.kinds| - 1] == RunFailed(end.code);
      assert r.kinds[|r.kinds| - 2] == ToolCompleted(c.id, Errored(end.code));
    } else if end.Answered? {
      assert r.kinds[|r.kinds| - 1] == ToolCompleted(c.id, end.completion);
      if run.Ran? { SetLookup(run.result, REVISION_KEY, Str(b.finalization.revision), REVISION_KEY); }
    }
  }

  ghost predicate FailureReported(id: string, kinds: seq<Kind>) {
    exists k :: 0 <= k < |kinds| && kinds[k].ToolCompleted? && kinds[k].id == id && kinds[k].completion.Errored?
  }

  lemma RecordIsTransactional(base: Workspace, s: State, c: Call, answer: Completion)
    requires Transactional(base, s) && c.id !in s.outcomes
    ensures Transactional(base, Record(s, c, answer))
  {
    forall k | 0 <= k < |s.commits| ensures Carries(Record(s, c, answer).outcomes, s.commits[k]) {
      assert Carries(s.outcomes, s.commits[k]);
    }
  }

  lemma StepIsTransactional(base: Workspace, s: State, c: Call, p: Prepared, turn: Turn, cfg: Config, run: RunResult,
                            b: Behaviour)
    requires Transactional(base, s) && Intact(Step(s, c, p, turn, cfg, run, b))
    ensures Transactional(base, Step(s, c, p, turn, cfg, run, b).state)
  {
    if c.id !in s.outcomes {
      if c.id in turn.decisions && !turn.decisions[c.id] {
        RecordIsTransactional(base, s, c, Errored("approval_rejected"));
      } else if p.Fresh? && p.validation.Ready? && p.validation.effect.Interaction? {
        RecordIsTransactional(base, s, c, Interact(turn, c.id));
      } else if Step(s, c, p, turn, cfg, run, b).state.ran != s.ran {
        PerformIsTransactional(base, s, c, p.validation.effect, run, b);
      }
    }
  }

  ghost predicate KeepsTransactions(base: Workspace, step: (State, nat) -> TurnResult) {
    forall s, i: nat :: Transactional(base, s) && Intact(step(s, i)) ==> Transactional(base, step(s, i).state)
  }

  lemma {:induction false} StepsAreTransactional(base: Workspace, s: State, step: (State, nat) -> TurnResult, n: nat)
    requires Transactional(base, s) && KeepsTransactions(base, step) && Intact(Steps(s, step, n))
    ensures Transactional(base, Steps(s, step, n).state)
  {
    if n > 0 {
      var done := Steps(s, step, n - 1);
      var r := step(done.state, n - 1);
      if done.progress.Continue? { assert Steps(s, step, n).kinds == done.kinds + r.kinds && Intact(r); }
      StepsAreTransactional(base, s, step, n - 1);
    }
  }

  /** Across a whole turn: whatever the coordinator and the tools do, unless a rollback fails or output cannot be
      reported, each side-effecting call leaves the workspace as it was or finalised under a completed outcome. */
  lemma TurnIsTransactional(base: Workspace, s: State, turn: Turn, cfg: Config, runs: seq<RunResult>)
    requires Fitted(turn, runs) && Transactional(base, s) && Intact(Execute(s, turn, cfg, runs))
    ensures Transactional(base, Execute(s, turn, cfg, runs).state)
  {
    TurnRunsOnce(s, turn, cfg, runs);
    if Consistent(turn.calls, turn.invalid, s.outcomes) && Passes(turn, s.outcomes, cfg.prepare) {
      OpenTurnAnswers(s, turn, cfg, runs);
      var step := TurnStep(turn, cfg, runs, s.outcomes);
      forall t, i: nat | Transactional(base, t) && Intact(step(t, i)) ensures Transactional(base, step(t, i).state) {
        if i < |turn.calls| {
          StepIsTransactional(base, t, turn.calls[i], Preparation(turn.calls, s.outcomes, cfg.prepare, i), turn, cfg,
                              runs[i], turn.behaviours[i]);
        }
      }
      StepsAreTransactional(base, s, step, |turn.calls|);
    } else {
      GatedTurnRunsNothing(s, turn, cfg, runs);
    }
  }

  /** The two escapes, exactly: a started side-effecting call ends intact if and only if it is undone by a rollback that
      works, or finalised, and all its output can be reported. */
  lemma IntactExactly(s: State, c: Call, effect: Effect, run: RunResult, b: Behaviour)
    requires SideEffecting(effect)
    ensures var finalised := run.Ran? && b.finalization.Finalized? && ValidRevision(b.finalization.revision);
            Intact(Perform(s, c, effect, run, b)) <==> Reportable(c.id, run) && (finalised || b.rollbackOk)
  {
    var r, end := Perform(s, c, effect, run, b), End(c.id, effect, run, b);
    if end.Stopped? { assert r.kinds[|r.kinds| - 1] == RunFailed(end.code); }
  }
}
