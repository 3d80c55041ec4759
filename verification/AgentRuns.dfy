/** Laws over whole runs of the agent loop: any number of tool turns sharing one record, one transcript and one
    workspace, the loop stopping at the first turn that does not continue. */
module AgentRuns {
  import opened Text
  import opened ToolOutput
  import opened ToolRun
  import opened Conversation
  import opened LoopEvents
  import opened ToolTurn

  /** One model turn: the calls proposed, what running them yields, whether the model also said something, and whether
      the turn resumes calls left pending by an earlier execution. */
  datatype Round = Round(turn: Turn, runs: seq<RunResult>, said: bool, resumes: bool)

  predicate WellPosed(rounds: seq<Round>) { forall i :: 0 <= i < |rounds| ==> Fitted(rounds[i].turn, rounds[i].runs) }

  function Declared(calls: seq<Call>): seq<string> {
    seq(|calls|, i requires 0 <= i < |calls| => calls[i].id)
  }

  /** The transcript ends with an assistant message that declares exactly these calls, names and arguments included. */
  predicate EndsWith(transcript: seq<Msg>, calls: seq<Call>) {
    && transcript != [] && transcript[|transcript| - 1].role.Assistant?
    && transcript[|transcript| - 1].calls == Declared(calls) && transcript[|transcript| - 1].content == Said(calls)
  }

  /** The assistant message that declares a turn's calls is in the transcript before they are answered; resuming does
      not repeat it. */
  function Proposed(s: State, round: Round): State {
    if !round.said && round.turn.calls == [] then s
    else if round.resumes && EndsWith(s.transcript, round.turn.calls) then s
    else s.(transcript := s.transcript + [Message(Assistant, "", Declared(round.turn.calls), Said(round.turn.calls))])
  }

  function LoopStep(rounds: seq<Round>, cfg: Config): (State, nat) -> TurnResult
    requires WellPosed(rounds)
  {
    (s: State, i: nat) =>
      if i >= |rounds| then TurnResult(s, [], Continue, 0)
      else Execute(Proposed(s, rounds[i]), rounds[i].turn, cfg, rounds[i].runs)
  }

  // ---------- At most once ----------

  ghost predicate KeepsRecord(s: State, t: State) {
    forall id :: id in s.outcomes ==> id in t.outcomes && t.outcomes[id] == s.outcomes[id]
  }

  ghost predicate Orderly(step: (State, nat) -> TurnResult) {
    forall s, i: nat :: RunsOnce(s, step(s, i)) && KeepsRecord(s, step(s, i).state)
  }

  lemma LoopStepIsOrderly(rounds: seq<Round>, cfg: Config)
    requires WellPosed(rounds)
    ensures Orderly(LoopStep(rounds, cfg))
  {
    var step := LoopStep(rounds, cfg);
    forall s, i: nat ensures RunsOnce(s, step(s, i)) && KeepsRecord(s, step(s, i).state) {
      if i < |rounds| { TurnRunsOnce(Proposed(s, rounds[i]), rounds[i].turn, cfg, rounds[i].runs); }
    }
  }

  lemma {:induction false} OrderlyRunsOnce(s: State, step: (State, nat) -> TurnResult, n: nat)
    requires Orderly(step) && Distinct(s.ran) && forall k :: 0 <= k < |s.ran| ==> s.ran[k] in s.outcomes
    ensures var r := Steps(s, step, n);
            && Distinct(r.state.ran) && KeepsRecord(s, r.state)
            && (r.progress.Continue? ==> forall k :: 0 <= k < |r.state.ran| ==> r.state.ran[k] in r.state.outcomes)
  {
    if n > 0 {
      OrderlyRunsOnce(s, step, n - 1);
      var done := Steps(s, step, n - 1);
      var r := step(done.state, n - 1);
      assert RunsOnce(done.state, r) && KeepsRecord(done.state, r.state);
      var added := r.state.ran[|done.state.ran|..];
      assert r.state.ran == done.state.ran + added;
    }
  }

  /** Over any number of turns every identifier's handler runs at most once, and no recorded outcome ever changes. */
  lemma EveryCallRunsAtMostOnce(s: State, rounds: seq<Round>, cfg: Config, n: nat)
    requires WellPosed(rounds) && Distinct(s.ran) && forall k :: 0 <= k < |s.ran| ==> s.ran[k] in s.outcomes
    ensures var r := Steps(s, LoopStep(rounds, cfg), n); Distinct(r.state.ran) && KeepsRecord(s, r.state)
  {
    LoopStepIsOrderly(rounds, cfg);
    OrderlyRunsOnce(s, LoopStep(rounds, cfg), n);
  }

  /** That the loop stops at a turn that does not continue is essential: a call whose rollback failed has run but is not
      recorded, so executing the same turn again would run it again. Here the tool crashes before it says anything. */
  lemma TerminalTurnForgets(s: State, c: Call, turn: Turn, cfg: Config, run: RunResult)
    requires turn.calls == [c] && turn.invalid == [] && turn.mode.AutoApprove? && turn.decisions == map[]
    requires c.id !in s.outcomes && cfg.coordinator && cfg.prepare(c) == Ready(Command)
    requires |turn.behaviours| == 1 && !turn.behaviours[0].rollbackOk
    requires turn.behaviours[0].creation == Created(Checkpoint(c.id, |s.transcript|, true))
    requires turn.behaviours[0].stream.items == [] && turn.behaviours[0].stream.ending.Crashed?
    requires Yields(turn.behaviours[0].stream, cfg.limits, true, cfg.redaction, run)
    ensures var first := Execute(s, turn, cfg, [run]);
            var second := Execute(first.state, turn, cfg, [run]);
            first.progress.Terminal? && second.state.ran == s.ran + [c.id, c.id]
  {
    var r := Execute(s, turn, cfg, [run]);
    SilentCrashYields(turn.behaviours[0].stream.closing, cfg.limits, true, cfg.redaction, run);
    Once(s, c, turn, cfg, run);
    Once(r.state, c, turn, cfg, run);
    assert s.ran + [c.id] + [c.id] == s.ran + [c.id, c.id];
  }

  lemma Once(s: State, c: Call, turn: Turn, cfg: Config, run: RunResult)
    requires turn.calls == [c] && turn.invalid == [] && turn.mode.AutoApprove? && turn.decisions == map[]
    requires c.id !in s.outcomes && cfg.coordinator && cfg.prepare(c) == Ready(Command)
    requires |turn.behaviours| == 1
    requires turn.behaviours[0].creation == Created(Checkpoint(c.id, |s.transcript|, true))
    ensures Execute(s, turn, cfg, [run]) == Perform(s, c, Command, run, turn.behaviours[0])
  {
    assert Preparation(turn.calls, s.outcomes, cfg.prepare, 0) == Fresh(Ready(Command));
    NothingAwaits(turn, s.outcomes, cfg.prepare, 1);
    assert Passes(turn, s.outcomes, cfg.prepare);
    assert Consistent(turn.calls, turn.invalid, s.outcomes);
    var step := TurnStep(turn, cfg, [run], s.outcomes);
    assert Steps(s, step, 1) == Then(Steps(s, step, 0), step(s, 0));
  }

  // ---------- Conversation blocks ----------

  /** The first `n` calls got one tool message each, in order, with at most one other message after them. */
  ghost predicate Replied(before: seq<Msg>, calls: seq<Call>, after: seq<Msg>, n: nat) {
    && before <= after && n <= |calls| && |before| + n <= |after| <= |before| + n + 1
    && (forall k :: 0 <= k < n ==> Replies(after[|before| + k], calls[k]))
    && (|after| > |before| + n ==> !after[|before| + n].role.Tool?)
  }

  /** The transcript ends with the message that declares the calls, if there are any. */
  ghost predicate Declaring(transcript: seq<Msg>, calls: seq<Call>) {
    calls == []
    || (&& transcript != [] && transcript[|transcript| - 1].role.Assistant?
        && forall k :: 0 <= k < |calls| ==> calls[k].id in transcript[|transcript| - 1].calls)
  }

  lemma RepliesKeepBlocks(before: seq<Msg>, calls: seq<Call>, after: seq<Msg>, n: nat)
    requires Blocked(before) && Declaring(before, calls) && Replied(before, calls, after, n)
    ensures Blocked(after)
  {
    var answers := after[|before|..|before| + n];
    assert before + answers == after[..|before| + n];
    if n > 0 {
      forall a | a in answers ensures a.role.Tool? && a.callId in before[|before| - 1].calls {
        var k :| 0 <= k < n && answers[k] == a;
        assert Replies(after[|before| + k], calls[k]);
      }
      AnswersKeepBlocks(before, answers);
    } else {
      assert after[..|before|] == before;
    }
    if |after| > |before| + n {
      OtherKeepsBlocks(after[..|before| + n], after[|before| + n]);
      assert after == after[..|before| + n] + [after[|before| + n]];
    } else {
      assert after == after[..|before| + n];
    }
  }

  lemma ProposalDeclares(s: State, round: Round)
    requires Blocked(s.transcript)
    ensures Blocked(Proposed(s, round).transcript) && Declaring(Proposed(s, round).transcript, round.turn.calls)
  {
    var calls := round.turn.calls;
    OtherKeepsBlocks(s.transcript, Message(Assistant, "", Declared(calls), Said(calls)));
    forall k | 0 <= k < |calls| ensures calls[k].id in Declared(calls) { assert Declared(calls)[k] == calls[k].id; }
  }

  lemma OpenTurnReplies(s: State, calls: seq<Call>, r: TurnResult)
    requires Answers(s, calls, |calls|, r)
    ensures Replied(s.transcript, calls, r.state.transcript, |r.state.transcript| - |s.transcript|)
  {
    forall k | 0 <= k < |r.state.transcript| - |s.transcript|
      ensures Replies(r.state.transcript[|s.transcript| + k], calls[k])
    {
      assert AnswerOf(r.state, calls[k].id, r.state.transcript[|s.transcript| + k]);
    }
  }

  /** However a turn ends, it leaves every tool message in a block opened by the assistant message that declared it. */
  lemma TurnKeepsBlocks(s: State, turn: Turn, cfg: Config, runs: seq<RunResult>)
    requires Fitted(turn, runs) && Blocked(s.transcript) && Declaring(s.transcript, turn.calls)
    ensures Blocked(Execute(s, turn, cfg, runs).state.transcript)
  {
    var r := Execute(s, turn, cfg, runs);
    if Consistent(turn.calls, turn.invalid, s.outcomes) && Passes(turn, s.outcomes, cfg.prepare) {
      OpenTurnAnswers(s, turn, cfg, runs);
      OpenTurnReplies(s, turn.calls, r);
      RepliesKeepBlocks(s.transcript, turn.calls, r.state.transcript, |r.state.transcript| - |s.transcript|);
    } else {
      GatedTurnAnswers(s, turn, cfg, runs);
      if r.state.transcript != s.transcript {
        RepliesKeepBlocks(s.transcript, turn.calls, r.state.transcript, |turn.calls|);
      }
    }
  }

  lemma GatedTurnAnswers(s: State, turn: Turn, cfg: Config, runs: seq<RunResult>)
    requires Fitted(turn, runs)
    requires !Consistent(turn.calls, turn.invalid, s.outcomes) || !Passes(turn, s.outcomes, cfg.prepare)
    ensures var after := Execute(s, turn, cfg, runs).state.transcript;
            after == s.transcript || OneEach(s.transcript, turn.calls, after)
  {
    NothingAwaits(turn, s.outcomes, cfg.prepare, |turn.calls|);
    var conflict := Conflict(turn.calls, turn.invalid, s.outcomes);
    RefusedOneEach(s.transcript, turn,
                   if conflict.Some? then ConflictCodes(turn, conflict.value)
                   else InvalidCodes(turn, s.outcomes, cfg.prepare));
  }

  ghost predicate KeepsBlocks(step: (State, nat) -> TurnResult) {
    forall s: State, i: nat :: Blocked(s.transcript) ==> Blocked(step(s, i).state.transcript)
  }

  lemma {:induction false} StepsKeepBlocks(s: State, step: (State, nat) -> TurnResult, n: nat)
    requires KeepsBlocks(step) && Blocked(s.transcript)
    ensures Blocked(Steps(s, step, n).state.transcript)
  {
    if n > 0 { StepsKeepBlocks(s, step, n - 1); }
  }

  /** Conversations built by the loop are block structured, so a recent window never orphans a tool message. */
  lemma ConversationsAreBlocked(s: State, rounds: seq<Round>, cfg: Config, n: nat)
    requires WellPosed(rounds) && Blocked(s.transcript)
    ensures Blocked(Steps(s, LoopStep(rounds, cfg), n).state.transcript)
  {
    var step := LoopStep(rounds, cfg);
    forall t: State, i: nat | Blocked(t.transcript) ensures Blocked(step(t, i).state.transcript) {
      if i < |rounds| {
        ProposalDeclares(t, rounds[i]);
        TurnKeepsBlocks(Proposed(t, rounds[i]), rounds[i].turn, cfg, rounds[i].runs);
      }
    }
    StepsKeepBlocks(s, step, n);
  }

  // ---------- Transactions ----------

  /** Over any number of turns the workspace is the last finalised one (or the initial one), and each finalised one is
      a recorded completed outcome carrying its revision. */
  lemma RunsAreTransactional(s: State, rounds: seq<Round>, cfg: Config, n: nat)
    requires WellPosed(rounds) && Transactional(s.workspace, s) && Intact(Steps(s, LoopStep(rounds, cfg), n))
    ensures Transactional(s.workspace, Steps(s, LoopStep(rounds, cfg), n).state)
  {
    var step, base := LoopStep(rounds, cfg), s.workspace;
    forall t, i: nat | Transactional(base, t) && Intact(step(t, i)) ensures Transactional(base, step(t, i).state) {
      if i < |rounds| { TurnIsTransactional(base, Proposed(t, rounds[i]), rounds[i].turn, cfg, rounds[i].runs); }
    }
    StepsAreTransactional(base, s, step, n);
  }

  // ---------- Output that cannot be reported ----------

  const DEFAULT_OUTPUT_BYTES := 256 * 1024

  lemma {:induction false} PartOfTotal(output: seq<Output>, i: nat)
    requires i < |output|
    ensures Size(output[i].chunk) <= Total(output)
  {
    var last := |output| - 1;
    if i < last { PartOfTotal(output[..last], i); }
  }

  predicate AlwaysFits(id: string, limit: nat) {
    OUTPUT_FRAME + Weight(JsonBytes, Literal(id)) + MAX_JSON_WIDTH * limit + 5 <= MAX_EVENT_PAYLOAD_BYTES
  }

  lemma BoundedOutputReports(id: string, limit: nat, run: RunResult)
    requires AlwaysFits(id, limit) && !run.CancelledRun? && Total(run.output) <= limit && NoEmptyChunk(run.output)
    ensures Reportable(id, run)
  {
    forall i | 0 <= i < |run.output| ensures Reports(id, run.output[i]) {
      PartOfTotal(run.output, i);
      WeightBounds(JsonBytes, run.output[i].chunk);
      WeightBounds(Utf8Bytes, run.output[i].chunk);
    }
  }

  /** A tool that only prints control characters, up to the limit, and returns. */
  function Babble(limit: nat): Stream { Stream([Chunk(Stdout, Controls(limit)), Done([])], Ended, Ended) }

  /** Redaction that finds nothing. */
  function NothingSecret(): Redaction { Redaction(t => t, o => o) }

  lemma BabbleYields(limits: Limits, checkpointed: bool, run: RunResult)
    requires limits.maxOutputBytes > 0 && ResultLimit(limits.maxResultBytes, checkpointed) >= 2
    ensures Yields(Babble(limits.maxOutputBytes), limits, checkpointed, NothingSecret(), run) <==>
      run == Ran([Output(Stdout, Controls(limits.maxOutputBytes), false)], [])
  {
    ControlsWeigh(limits.maxOutputBytes);
    OneChunkYields(Stdout, Controls(limits.maxOutputBytes), [], Ended, limits, checkpointed, NothingSecret(), run);
  }

  lemma BabbleReports(id: string, limit: nat)
    requires limit > 0
    ensures Reportable(id, Ran([Output(Stdout, Controls(limit), false)], [])) <==> AlwaysFits(id, limit)
  {
    ControlsWeigh(limit);
    var run := Ran([Output(Stdout, Controls(limit), false)], []);
    assert run.output[0] == Output(Stdout, Controls(limit), false);
    assert Controls(limit)[0] == 1;
  }

  lemma YieldedIsBounded(stream: Stream, limits: Limits, checkpointed: bool, r: Redaction, run: RunResult)
    requires KeepsText(r.text) && TextChunks(stream.items) && Yields(stream, limits, checkpointed, r, run)
    ensures run.CancelledRun? || (Total(run.output) <= limits.maxOutputBytes && NoEmptyChunk(run.output))
  {
  }

  /** Whatever a tool says and however its text is redacted, all of its output can be reported, if and only if the limit
      leaves room for escaping every byte of it. */
  lemma ReportableExactly(id: string, limits: Limits)
    requires limits.maxOutputBytes > 0 && limits.maxResultBytes >= 2
    ensures AlwaysFits(id, limits.maxOutputBytes) <==>
      forall stream: Stream, checkpointed, r: Redaction, run ::
        KeepsText(r.text) && TextChunks(stream.items) && Yields(stream, limits, checkpointed, r, run)
        ==> Reportable(id, run)
  {
    if AlwaysFits(id, limits.maxOutputBytes) {
      forall stream: Stream, checkpointed, r: Redaction, run
        | KeepsText(r.text) && TextChunks(stream.items) && Yields(stream, limits, checkpointed, r, run)
        ensures Reportable(id, run)
      {
        YieldedIsBounded(stream, limits, checkpointed, r, run);
        if !run.CancelledRun? { BoundedOutputReports(id, limits.maxOutputBytes, run); }
      }
    } else {
      var worst := Ran([Output(Stdout, Controls(limits.maxOutputBytes), false)], []);
      BabbleYields(limits, false, worst);
      BabbleReports(id, limits.maxOutputBytes);
      assert Controls(limits.maxOutputBytes)[0] == 1 && TextChunks(Babble(limits.maxOutputBytes).items);
      assert KeepsText(NothingSecret().text);
    }
  }

  /** The escape that leaves a half-done workspace: with the default limits, a command that prints only control
      characters is run, and its turn raises: the call is neither recorded nor rolled back, even if it could be. */
  lemma UnreportableOutputSkipsRollback(s: State, c: Call, turn: Turn, cfg: Config, run: RunResult)
    requires turn.calls == [c] && turn.invalid == [] && turn.mode.AutoApprove? && turn.decisions == map[]
    requires c.id !in s.outcomes && cfg.coordinator && cfg.prepare(c) == Ready(Command)
    requires |turn.behaviours| == 1
    requires turn.behaviours[0].creation == Created(Checkpoint(c.id, |s.transcript|, true))
    requires cfg.limits.maxOutputBytes == DEFAULT_OUTPUT_BYTES && ResultLimit(cfg.limits.maxResultBytes, true) >= 2
    requires cfg.redaction == NothingSecret()
    requires turn.behaviours[0].stream == Babble(DEFAULT_OUTPUT_BYTES)
    requires Yields(turn.behaviours[0].stream, cfg.limits, true, cfg.redaction, run)
    ensures var r := Execute(s, turn, cfg, [run]);
            && r.progress == Escaped(OutputRejection) && r.state.workspace == turn.behaviours[0].after
            && r.state.outcomes == s.outcomes && r.state.ran == s.ran + [c.id]
  {
    BabbleYields(cfg.limits, true, run);
    BabbleReports(c.id, DEFAULT_OUTPUT_BYTES);
    Once(s, c, turn, cfg, run);
  }
}
