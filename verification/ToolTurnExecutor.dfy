/** The tool-turn executor itself: it updates the recorded outcomes and the transcript in place, numbers the events it
    emits, and drives the checkpoint coordinator around each side-effecting tool. */
module ToolTurnExecutor {
  import opened Text
  import opened ToolOutput
  import opened ToolRun
  import opened Conversation
  import opened LoopEvents
  import opened ToolTurn
  import opened Wrappers

  datatype Event = Event(number: nat, kind: Kind)

  datatype Report = Report(events: seq<Event>, terminal: bool, semanticFailures: nat) | Thrown(cause: Cause)

  /** The events for these kinds, numbered consecutively after `start`. */
  function Number(kinds: seq<Kind>, start: nat): (events: seq<Event>)
    ensures |events| == |kinds|
  {
    seq(|kinds|, i requires 0 <= i < |kinds| => Event(start + i + 1, kinds[i]))
  }

  predicate Tells(report: Report, r: TurnResult, start: nat) {
    match r.progress
    case Escaped(cause) => report == Thrown(cause)
    case _ => report == Report(Number(r.kinds, start), r.progress.Terminal?, r.semanticFailures)
  }

  /** The tool behaving like `b`, checkpointed or not, can yield `run`. */
  ghost predicate Produced(cfg: Config, b: Behaviour, checkpointed: bool, run: RunResult) {
    Yields(b.stream, cfg.limits, checkpointed, cfg.redaction, run)
  }

  /** A prepared call that ran yielded what its tool can, under the limits its effect calls for. */
  ghost predicate PlausibleAt(cfg: Config, p: Prepared, b: Behaviour, run: RunResult) {
    p.Fresh? && p.validation.Ready? ==> Produced(cfg, b, SideEffecting(p.validation.effect), run)
  }

  /** What an executor's log gained. */
  ghost function Gained(before: seq<string>, after: seq<string>): seq<string> {
    if |before| <= |after| then after[|before|..] else []
  }

  /** One of the first `n` calls has this identifier. */
  ghost predicate Called(calls: seq<Call>, id: string, n: nat) {
    exists i :: 0 <= i < |calls| && calls[i].id == id && i < n
  }

  lemma CalledFurther(calls: seq<Call>, id: string, m: nat, n: nat)
    requires m <= n && Called(calls, id, m)
    ensures Called(calls, id, n)
  {
    var i :| 0 <= i < |calls| && calls[i].id == id && i < m;
  }

  /** The runs explain the log: what was run are calls among the first `n`, and each of them yielded what it can. */
  ghost predicate Explained(cfg: Config, turn: Turn, outcomes: map<string, Outcome>, runs: seq<RunResult>,
                            ran: seq<string>, n: nat)
  {
    && Fitted(turn, runs)
    && (forall k :: 0 <= k < |ran| ==> Called(turn.calls, ran[k], n))
    && forall i {:trigger PreparedRun(cfg, turn, outcomes, runs, i)} ::
         0 <= i < |runs| && turn.calls[i].id in ran ==> PreparedRun(cfg, turn, outcomes, runs, i)
  }

  ghost predicate PreparedRun(cfg: Config, turn: Turn, outcomes: map<string, Outcome>, runs: seq<RunResult>, i: nat)
    requires Fitted(turn, runs) && i < |runs|
  {
    PlausibleAt(cfg, Preparation(turn.calls, outcomes, cfg.prepare, i), turn.behaviours[i], runs[i])
  }

  /** The runs of a turn none of whose calls was run. */
  ghost function NoRuns(turn: Turn): seq<RunResult> { seq(|turn.calls|, i => CancelledRun) }

  lemma GainedNext(start: seq<string>, before: seq<string>, after: seq<string>, id: string)
    requires start <= before && (after == before || after == before + [id])
    ensures start <= after
    ensures Gained(start, after) == Gained(start, before) + if after == before then [] else [id]
  {
  }

  lemma NoRunsExplained(cfg: Config, turn: Turn, outcomes: map<string, Outcome>, n: nat)
    requires |turn.behaviours| == |turn.calls|
    ensures Explained(cfg, turn, outcomes, NoRuns(turn), [], n)
  {
  }

  lemma ExplainedFurther(cfg: Config, turn: Turn, outcomes: map<string, Outcome>, runs: seq<RunResult>,
                         ran: seq<string>, m: nat, n: nat)
    requires m <= n && Explained(cfg, turn, outcomes, runs, ran, m)
    ensures Explained(cfg, turn, outcomes, runs, ran, n)
  {
    forall k | 0 <= k < |ran| ensures Called(turn.calls, ran[k], n) { CalledFurther(turn.calls, ran[k], m, n); }
  }

  /** An identifier is prepared at its first use only, so a step that runs one explains it and disturbs no other. */
  lemma ExplainStep(cfg: Config, turn: Turn, outcomes: map<string, Outcome>, runs: seq<RunResult>, ran: seq<string>,
                    i: nat, run: RunResult, ran': seq<string>)
    requires Explained(cfg, turn, outcomes, runs, ran, i) && i < |turn.calls|
    requires ran' == ran || ran' == ran + [turn.calls[i].id]
    requires ran' != ran ==>
      var p := Preparation(turn.calls, outcomes, cfg.prepare, i);
      p.Fresh? && PlausibleAt(cfg, p, turn.behaviours[i], run)
    ensures Explained(cfg, turn, outcomes, runs[i := run], ran', i + 1)
  {
    var runs' := runs[i := run];
    forall k | 0 <= k < |ran'| ensures Called(turn.calls, ran'[k], i + 1) {
      if k < |ran| { CalledFurther(turn.calls, ran[k], i, i + 1); } else { assert turn.calls[i].id == ran'[k]; }
    }
    forall j | 0 <= j < |runs'| && turn.calls[j].id in ran' ensures PreparedRun(cfg, turn, outcomes, runs', j) {
      ExplainCall(cfg, turn, outcomes, runs, ran, i, run, ran', j);
    }
  }

  lemma ExplainCall(cfg: Config, turn: Turn, outcomes: map<string, Outcome>, runs: seq<RunResult>, ran: seq<string>,
                    i: nat, run: RunResult, ran': seq<string>, j: nat)
    requires Explained(cfg, turn, outcomes, runs, ran, i) && i < |turn.calls|
    requires ran' == ran || ran' == ran + [turn.calls[i].id]
    requires ran' != ran ==>
      var p := Preparation(turn.calls, outcomes, cfg.prepare, i);
      p.Fresh? && PlausibleAt(cfg, p, turn.behaviours[i], run)
    requires j < |runs| && turn.calls[j].id in ran'
    ensures PreparedRun(cfg, turn, outcomes, runs[i := run], j)
  {
    if turn.calls[j].id in ran {
      if j == i {
        var k :| 0 <= k < |ran| && ran[k] == turn.calls[j].id;
        assert Called(turn.calls, ran[k], i);
        assert Repeats(turn.calls, outcomes, j);
      } else {
        assert PreparedRun(cfg, turn, outcomes, runs, j);
      }
    } else if j > i {
      assert Repeats(turn.calls, outcomes, j);
    } else if j < i {
      assert false;   // call `i` would not be fresh
    }
  }

  predicate Cancels(b: Behaviour) { b.stream.ending.Cancelled? || b.stream.closing.Cancelled? }

  /** Only a cancelled tool lets a cancellation, or the failure to undo one, escape. */
  ghost predicate Blames(turn: Turn, progress: Progress) {
    progress.Escaped? && (progress.cause.Cancellation? || progress.cause.RestoreFailure?) ==>
      exists i :: 0 <= i < |turn.behaviours| && Cancels(turn.behaviours[i])
  }

  ghost predicate Used(calls: seq<Call>, outcomes: map<string, Outcome>, id: string) {
    id in outcomes || exists j :: 0 <= j < |calls| && calls[j].id == id
  }

  /** The identities learnt from the record and from the first `i` calls. */
  ghost predicate Learnt(identities: map<string, Identity>, calls: seq<Call>, outcomes: map<string, Outcome>, i: nat)
    requires i <= |calls|
  {
    && (forall id :: id in outcomes ==> id in identities && identities[id] == Recorded(outcomes[id]))
    && (forall j :: 0 <= j < i ==> calls[j].id in identities && identities[calls[j].id] == CallIdentity(calls[j]))
    && (forall id :: id in identities ==> id in outcomes || exists j :: 0 <= j < i && calls[j].id == id)
  }

  /** Looking the identifier up among the learnt identities decides whether the next call agrees with all before it. */
  lemma LearnOne(identities: map<string, Identity>, calls: seq<Call>, outcomes: map<string, Outcome>, i: nat)
    requires i < |calls| && Learnt(identities, calls, outcomes, i)
    ensures CallAgrees(calls, outcomes, i) <==>
      (calls[i].id in identities ==> identities[calls[i].id] == CallIdentity(calls[i]))
    ensures CallAgrees(calls, outcomes, i) ==>
      Learnt(identities[calls[i].id := CallIdentity(calls[i])], calls, outcomes, i + 1)
  {
    var c := calls[i];
    if c.id in identities && identities[c.id] != CallIdentity(c) && c.id !in outcomes {
      var j :| 0 <= j < i && calls[j].id == c.id;
    }
  }

  method CheckCalls(calls: seq<Call>, outcomes: map<string, Outcome>) returns (conflict: Option<string>, used: set<string>)
    ensures conflict == CallConflict(calls, outcomes, |calls|)
    ensures conflict.None? ==> forall id :: id in used <==> Used(calls, outcomes, id)
  {
    var identities := map id | id in outcomes :: Recorded(outcomes[id]);
    for i := 0 to |calls|
      invariant CallConflict(calls, outcomes, i).None? && Learnt(identities, calls, outcomes, i)
    {
      var c := calls[i];
      LearnOne(identities, calls, outcomes, i);
      if c.id in identities && identities[c.id] != CallIdentity(c) {
        FirstConflict(calls, outcomes, i);
        return Some(c.id), {};
      }
      identities := identities[c.id := CallIdentity(c)];
    }
    return None, identities.Keys;
  }

  method CheckInvalid(calls: seq<Call>, invalid: seq<InvalidCall>, outcomes: map<string, Outcome>, known: set<string>)
    returns (conflict: Option<string>)
    requires forall id :: id in known <==> Used(calls, outcomes, id)
    ensures conflict == InvalidConflict(calls, invalid, outcomes, |invalid|)
  {
    var used := known;
    for i := 0 to |invalid|
      invariant InvalidConflict(calls, invalid, outcomes, i).None?
      invariant forall id :: id in used <==> id in known || exists j :: 0 <= j < i && invalid[j].id == id
    {
      var id := invalid[i].id;
      if id in used {
        assert id in known ==> Used(calls, outcomes, id);
        assert !InvalidAgrees(calls, invalid, outcomes, i);
        FirstInvalid(calls, invalid, outcomes, i);
        return Some(id);
      }
      assert !Used(calls, outcomes, id);
      assert InvalidAgrees(calls, invalid, outcomes, i);
      used := used + {id};
    }
    return None;
  }

  class Executor {
    const cfg: Config
    const events: EventFactory
    var outcomes: map<string, Outcome>
    var transcript: seq<Msg>
    ghost var workspace: Workspace
    ghost var ran: seq<string>
    ghost var commits: seq<Commit>

    constructor (cfg: Config, events: EventFactory, outcomes: map<string, Outcome>, transcript: seq<Msg>,
                 ghost workspace: Workspace)
      ensures this.cfg == cfg && this.events == events && S() == State(outcomes, transcript, workspace, [], [])
    {
      this.cfg, this.events, this.outcomes, this.transcript := cfg, events, outcomes, transcript;
      this.workspace, ran, commits := workspace, [], [];
    }

    ghost function S(): State
      reads this
    {
      State(outcomes, transcript, workspace, ran, commits)
    }

    /** `emitted` are the events for these kinds, and the factory has numbered just them since `start`. */
    ghost predicate Emitted(emitted: seq<Event>, kinds: seq<Kind>, start: nat)
      reads events
    {
      emitted == Number(kinds, start) && events.sequence == start + |kinds|
    }

    method Emit(emitted: seq<Event>, ghost kinds: seq<Kind>, ghost start: nat, kind: Kind) returns (r: seq<Event>)
      requires Emitted(emitted, kinds, start)
      modifies events
      ensures Emitted(r, kinds + [kind], start)
    {
      var n := events.Metadata();
      r := emitted + [Event(n, kind)];
      assert r == Number(kinds + [kind], start);
    }

    // ---------- Gates ----------

    /** Returns nothing exactly when every identifier means one thing: see `Conflict` and `Consistent`. */
    method FindConflict(turn: Turn) returns (conflict: Option<string>)
      ensures conflict == Conflict(turn.calls, turn.invalid, outcomes)
    {
      var used;
      conflict, used := CheckCalls(turn.calls, outcomes);
      if conflict.None? { conflict := CheckInvalid(turn.calls, turn.invalid, outcomes, used); }
    }

    method PrepareCalls(calls: seq<Call>) returns (prepared: seq<Prepared>)
      ensures |prepared| == |calls|
      ensures forall i :: 0 <= i < |calls| ==> prepared[i] == Preparation(calls, outcomes, cfg.prepare, i)
    {
      prepared := [];
      var pending: set<string> := {};
      for i := 0 to |calls|
        invariant |prepared| == i
        invariant forall j :: 0 <= j < i ==> prepared[j] == Preparation(calls, outcomes, cfg.prepare, j)
        invariant forall id :: id in pending ==> exists j :: 0 <= j < i && calls[j].id == id
        invariant forall j :: 0 <= j < i ==> calls[j].id in outcomes || calls[j].id in pending
      {
        if calls[i].id in outcomes || calls[i].id in pending {
          prepared := prepared + [Repeat];
        } else {
          pending := pending + {calls[i].id};
          prepared := prepared + [Fresh(cfg.prepare(calls[i]))];
        }
      }
    }

    // ---------- Rejected turns ----------

    method RefuseCalls(turn: Turn, codes: seq<string>) returns (emitted: seq<Event>)
      requires |codes| == |turn.calls|
      modifies this`transcript, events
      ensures transcript == old(transcript) + CallAnswers(turn, codes)
      ensures Emitted(emitted, CallRefusals(turn, codes), old(events.sequence))
    {
      emitted := [];
      ghost var start, kinds, messages := events.sequence, CallRefusals(turn, codes), CallAnswers(turn, codes);
      assert kinds[..|kinds|] == kinds && messages[..|messages|] == messages;
      for i := 0 to |codes|
        invariant Emitted(emitted, kinds[..i], start) && transcript == old(transcript) + messages[..i]
      {
        assert kinds[..i + 1] == kinds[..i] + [kinds[i]] && messages[..i + 1] == messages[..i] + [messages[i]];
        emitted := Emit(emitted, kinds[..i], start, ToolCompleted(turn.calls[i].id, Errored(codes[i])));
        transcript := transcript + [ToolMsg(turn.calls[i].id, Errored(codes[i]))];
      }
    }

    /** Fail every call of the turn with its code, without running anything. */
    method Refuse(turn: Turn, codes: seq<string>, invalidCodes: seq<string>) returns (emitted: seq<Event>)
      requires |codes| == |turn.calls| && |invalidCodes| == |turn.invalid|
      modifies this`transcript, events
      ensures transcript == old(transcript) + RefusedMessages(turn, codes)
      ensures Emitted(emitted, RefusedKinds(turn, codes, invalidCodes), old(events.sequence))
    {
      ghost var start, first, kinds := events.sequence, CallRefusals(turn, codes), InvalidRefusals(turn, invalidCodes);
      emitted := RefuseCalls(turn, codes);
      assert first + kinds[..0] == first && kinds[..|kinds|] == kinds;
      for i := 0 to |invalidCodes|
        invariant Emitted(emitted, first + kinds[..i], start)
        invariant transcript == old(transcript) + CallAnswers(turn, codes)
      {
        assert first + kinds[..i + 1] == first + kinds[..i] + [kinds[i]];
        emitted := Emit(emitted, first + kinds[..i], start, ToolCompleted(turn.invalid[i].id, Errored(invalidCodes[i])));
      }
      if turn.invalid != [] { transcript := transcript + [Message(User, "", [], Correction(turn.invalid))]; }
    }

    method RejectConflictingTurn(turn: Turn, conflict: string) returns (report: Report)
      modifies this`transcript, events
      ensures S() == RejectConflicting(old(S()), turn, conflict).state
      ensures Tells(report, RejectConflicting(old(S()), turn, conflict), old(events.sequence))
    {
      ghost var start := events.sequence;
      var invalidCodes := seq(|turn.invalid|, i requires 0 <= i < |turn.invalid| =>
                                if turn.invalid[i].id == conflict then "tool_call_id_conflict" else turn.invalid[i].code);
      var emitted := Refuse(turn, ConflictCodes(turn, conflict), invalidCodes);
      emitted := Emit(emitted, RefusedKinds(turn, ConflictCodes(turn, conflict), invalidCodes), start,
                      RunFailed("tool_call_id_conflict"));
      return Report(emitted, true, 0);
    }

    /** Record a failure for every identifier that has no outcome yet. */
    method RecordDefaults(turn: Turn, codes: seq<string>)
      requires |codes| == |turn.calls|
      modifies this`outcomes
      ensures outcomes == InvalidDefaults(CallDefaults(old(outcomes), turn, codes, |codes|), turn, |turn.invalid|)
    {
      for i := 0 to |codes|
        invariant outcomes == CallDefaults(old(outcomes), turn, codes, i)
      {
        var c := turn.calls[i];
        if c.id !in outcomes { outcomes := outcomes[c.id := Outcome(c.name, Some(c.hash), Errored(codes[i]))]; }
      }
      ghost var recorded := outcomes;
      for i := 0 to |turn.invalid|
        invariant outcomes == InvalidDefaults(recorded, turn, i)
      {
        var c := turn.invalid[i];
        if c.id !in outcomes { outcomes := outcomes[c.id := Outcome(c.name, None, Errored(c.code))]; }
      }
    }

    method RejectInvalidTurn(turn: Turn, prepared: seq<Prepared>) returns (report: Report)
      requires |prepared| == |turn.calls|
      requires forall i :: 0 <= i < |prepared| ==> prepared[i] == Preparation(turn.calls, outcomes, cfg.prepare, i)
      modifies this`transcript, this`outcomes, events
      ensures S() == RejectInvalid(old(S()), turn, cfg).state
      ensures Tells(report, RejectInvalid(old(S()), turn, cfg), old(events.sequence))
    {
      ghost var start := events.sequence;
      var codes := seq(|prepared|, i requires 0 <= i < |prepared| =>
                         if prepared[i].Fresh? && prepared[i].validation.Unusable? then prepared[i].validation.code
                         else "tool_turn_rejected");
      assert codes == InvalidCodes(turn, outcomes, cfg.prepare);
      var invalidCodes := seq(|turn.invalid|, i requires 0 <= i < |turn.invalid| => turn.invalid[i].code);
      var emitted := Refuse(turn, codes, invalidCodes);
      RecordDefaults(turn, codes);
      ghost var kinds := RefusedKinds(turn, codes, invalidCodes);
      var terminal := turn.retries + 1 > cfg.maxSemanticRetries;
      if terminal {
        emitted := Emit(emitted, kinds, start, RunFailed("semantic_retry_limit"));
      } else {
        assert kinds + [] == kinds;
      }
      return Report(emitted, terminal, 1);
    }

    // ---------- One call ----------

    /** The coordinator's rollback: it restores the given workspace, or fails and leaves anything. */
    method Rollback(b: Behaviour, ghost before: Workspace) returns (ok: bool)
      modifies this`workspace
      ensures ok == b.rollbackOk && workspace == if ok then before else b.wreck
    {
      ok := b.rollbackOk;
      workspace := if ok then before else b.wreck;
    }

    /** Report a failed call and the end of the run. */
    method Stop(emitted: seq<Event>, ghost kinds: seq<Kind>, ghost start: nat, id: string, code: string)
      returns (r: seq<Event>)
      requires Emitted(emitted, kinds, start)
      modifies events
      ensures Emitted(r, kinds + [ToolCompleted(id, Errored(code)), RunFailed(code)], start)
    {
      r := Emit(emitted, kinds, start, ToolCompleted(id, Errored(code)));
      r := Emit(r, kinds + [ToolCompleted(id, Errored(code))], start, RunFailed(code));
      assert kinds + [ToolCompleted(id, Errored(code))] + [RunFailed(code)]
          == kinds + [ToolCompleted(id, Errored(code)), RunFailed(code)];
    }

    /** Record an outcome, then report and answer it. */
    method Settle(emitted: seq<Event>, ghost kinds: seq<Kind>, ghost start: nat, c: Call, answer: Completion)
      returns (r: seq<Event>)
      requires Emitted(emitted, kinds, start)
      modifies this`outcomes, this`transcript, events
      ensures S() == Record(old(S()), c, answer) && Emitted(r, kinds + [ToolCompleted(c.id, answer)], start)
    {
      outcomes := outcomes[c.id := Outcome(c.name, Some(c.hash), answer)];
      r := Emit(emitted, kinds, start, ToolCompleted(c.id, answer));
      transcript := transcript + [ToolMsg(c.id, answer)];
    }

    /** Emit one event per piece of output, giving up at the first that is too large for an event. */
    method Say(emitted: seq<Event>, ghost kinds: seq<Kind>, ghost start: nat, id: string, output: seq<Output>)
      returns (r: seq<Event>, ok: bool)
      requires Emitted(emitted, kinds, start)
      modifies events
      ensures ok <==> forall i :: 0 <= i < |output| ==> Reports(id, output[i])
      ensures ok ==> Emitted(r, kinds + OutputKinds(id, output), start)
    {
      r, ok := emitted, true;
      ghost var said := OutputKinds(id, output);
      assert kinds + said[..0] == kinds && said[..|said|] == said;
      for i := 0 to |output|
        invariant Emitted(r, kinds + said[..i], start) && forall j :: 0 <= j < i ==> Reports(id, output[j])
      {
        if !Reports(id, output[i]) { return r, false; }
        assert kinds + said[..i + 1] == kinds + said[..i] + [said[i]];
        r := Emit(r, kinds + said[..i], start, ToolSaid(id, output[i]));
      }
    }

    /** Why the pre-tool checkpoint cannot be had, if it cannot. */
    method CreateCheckpoint(id: string, b: Behaviour) returns (refused: Option<string>)
      ensures refused == CreateFailure(cfg, id, |transcript|, b)
      ensures refused.None? <==> cfg.coordinator && b.creation == Created(Checkpoint(id, |transcript|, true))
    {
      if !cfg.coordinator { return Some("checkpoint_required"); }
      match b.creation {
        case CreateRefused(code) => return Some(code);
        case CreateCrashed => return Some("checkpoint_create_failed");
        case Created(checkpoint) =>
          if checkpoint.callId != id || checkpoint.messageSequence != |transcript| || !checkpoint.sameRequest {
            return Some("checkpoint_contract_invalid");
          }
          return None;
      }
    }

    /** After a checkpointed tool succeeded: finalise its workspace, or put the old one back. */
    method Finalize(run: RunResult, b: Behaviour, ghost before: Workspace) returns (end: Ending)
      requires run.Ran? && ObjectSize(run.result) <= ResultLimit(cfg.limits.maxResultBytes, true)
      modifies this`workspace
      ensures end == if b.finalization.Finalized? && ValidRevision(b.finalization.revision)
                     then Answered(Completed(WithRevision(run.result, b.finalization.revision)))
                     else Stopped(if b.rollbackOk then "checkpoint_finalize_failed" else "checkpoint_restore_failed")
      ensures workspace == if end.Answered? then old(workspace) else if b.rollbackOk then before else b.wreck
      ensures end.Answered? ==> ObjectSize(end.completion.result) <= cfg.limits.maxResultBytes
    {
      if b.finalization.Finalized? && ValidRevision(b.finalization.revision) {
        var completed := WithRevision(run.result, b.finalization.revision);
        ReserveSuffices(run.result, b.finalization.revision, cfg.limits.maxResultBytes);
        return Answered(Completed(completed));
      }
      var ok := Rollback(b, before);
      return Stopped(if ok then "checkpoint_finalize_failed" else "checkpoint_restore_failed");
    }

    /** How a tool that ran to its end, with its output reported, is settled. */
    method Conclude(id: string, effect: Effect, run: RunResult, b: Behaviour, ghost before: Workspace)
      returns (end: Ending)
      requires !run.CancelledRun? && Reportable(id, run)
      requires run.Ran? ==> ObjectSize(run.result) <= ResultLimit(cfg.limits.maxResultBytes, SideEffecting(effect))
      requires workspace == if SideEffecting(effect) then b.after else before
      modifies this`workspace
      ensures end == End(id, effect, run, b) && workspace == Left(id, effect, before, run, b)
    {
      if !SideEffecting(effect) {
        return Answered(if run.Ran? then Completed(run.result) else Errored(run.code));
      }
      if run.Failed? {
        var ok := Rollback(b, before);
        return if ok then Answered(Errored(run.code)) else Stopped("checkpoint_restore_failed");
      }
      end := Finalize(run, b, before);
    }

    /** Run the tool: the handler is logged, and a side-effecting one leaves its workspace behind. */
    method RunTool(id: string, effect: Effect, b: Behaviour) returns (run: RunResult)
      requires cfg.limits.maxOutputBytes >= MAX_WIDTH
      modifies this`workspace, this`ran
      ensures ran == old(ran) + [id] && workspace == if SideEffecting(effect) then b.after else old(workspace)
      ensures Produced(cfg, b, SideEffecting(effect), run) && (run.CancelledRun? ==> Cancels(b))
      ensures run.Ran? ==> ObjectSize(run.result) <= ResultLimit(cfg.limits.maxResultBytes, SideEffecting(effect))
    {
      ran := ran + [id];
      if SideEffecting(effect) { workspace := b.after; }
      run := ToolRun.Run(b.stream, cfg.limits, SideEffecting(effect), cfg.redaction);
    }

    /** Announce a call about to run. */
    method Open(emitted: seq<Event>, ghost kinds: seq<Kind>, ghost start: nat, id: string, effect: Effect)
      returns (r: seq<Event>)
      requires Emitted(emitted, kinds, start)
      modifies events
      ensures Emitted(r, kinds + Opening(id, effect), start)
    {
      r := emitted;
      ghost var opening := Opening(id, effect);
      if SideEffecting(effect) { r := Emit(r, kinds, start, CheckpointCreated(id)); }
      assert kinds + opening[..|opening| - 1] + [ToolStarted(id)] == kinds + opening;
      r := Emit(r, kinds + opening[..|opening| - 1], start, ToolStarted(id));
    }

    /** Report and record how a call ended. */
    method Close(emitted: seq<Event>, ghost kinds: seq<Kind>, ghost told: seq<Kind>, ghost start: nat, c: Call,
                 effect: Effect, end: Ending, b: Behaviour)
      returns (r: seq<Event>, progress: Progress)
      requires Emitted(emitted, kinds + told, start) && !end.Raised?
      modifies this`outcomes, this`transcript, this`commits, events
      ensures var done := Concluded(old(S()), c, effect, end, told, b);
              S() == done.state && progress == done.progress && Emitted(r, kinds + done.kinds, start)
    {
      ghost var done := Concluded(S(), c, effect, end, told, b);
      assert kinds + told + done.kinds[|told|..] == kinds + done.kinds;
      if end.Stopped? {
        r := Stop(emitted, kinds + told, start, c.id, end.code);
        return r, Terminal;
      }
      if SideEffecting(effect) && end.completion.Completed? && b.finalization.Finalized? {
        commits := commits + [Commit(c.id, b.finalization.revision, b.after)];
      }
      r := Settle(emitted, kinds + told, start, c, end.completion);
      return r, Continue;
    }

    /** Undo a cancelled call before the cancellation goes on. */
    method Cancelled(effect: Effect, b: Behaviour, ghost before: Workspace) returns (cause: Cause)
      requires !SideEffecting(effect) ==> workspace == before
      modifies this`workspace
      ensures cause == if SideEffecting(effect) && !b.rollbackOk then RestoreFailure else Cancellation
      ensures workspace == if SideEffecting(effect) && !b.rollbackOk then b.wreck else before
    {
      if SideEffecting(effect) {
        var ok := Rollback(b, before);
        if !ok { return RestoreFailure; }
      }
      return Cancellation;
    }

    /** See a call through once its tool has run: undo, report, conclude and record it. */
    method SeeThrough(emitted: seq<Event>, ghost kinds: seq<Kind>, ghost start: nat, c: Call, effect: Effect,
                      run: RunResult, b: Behaviour, ghost before: Workspace)
      returns (r: seq<Event>, progress: Progress)
      requires Emitted(emitted, kinds + Opening(c.id, effect), start)
      requires run.Ran? ==> ObjectSize(run.result) <= ResultLimit(cfg.limits.maxResultBytes, SideEffecting(effect))
      requires workspace == if SideEffecting(effect) then b.after else before
      modifies this`workspace, this`outcomes, this`transcript, this`commits, events
      ensures var told := Opening(c.id, effect) + (if run.CancelledRun? then [] else OutputKinds(c.id, run.output));
              var done := Concluded(old(S()).(workspace := Left(c.id, effect, before, run, b)), c, effect,
                                    End(c.id, effect, run, b), told, b);
              && S() == done.state && progress == done.progress
              && (!progress.Escaped? ==> Emitted(r, kinds + done.kinds, start))
      ensures progress == Escaped(Cancellation) || progress == Escaped(RestoreFailure) ==> run.CancelledRun?
    {
      ghost var opening := Opening(c.id, effect);
      r := emitted;
      if run.CancelledRun? {
        var cause := Cancelled(effect, b, before);
        return r, Escaped(cause);
      }
      var ok;
      r, ok := Say(r, kinds + opening, start, c.id, run.output);
      if !ok { return r, Escaped(OutputRejection); }
      ghost var told := opening + OutputKinds(c.id, run.output);
      assert kinds + opening + OutputKinds(c.id, run.output) == kinds + told;
      var end := Conclude(c.id, effect, run, b, before);
      r, progress := Close(r, kinds, told, start, c, effect, end, b);
    }

    /** Start a call whose checkpoint, if it needs one, has been created, and see it through. */
    method PerformCall(emitted: seq<Event>, ghost kinds: seq<Kind>, ghost start: nat, c: Call, effect: Effect,
                       b: Behaviour)
      returns (r: seq<Event>, progress: Progress, ghost run: RunResult)
      requires Emitted(emitted, kinds, start) && cfg.limits.maxOutputBytes >= MAX_WIDTH
      modifies this, events
      ensures Produced(cfg, b, SideEffecting(effect), run)
      ensures var done := Perform(old(S()), c, effect, run, b);
              && S() == done.state && progress == done.progress
              && (!progress.Escaped? ==> Emitted(r, kinds + done.kinds, start))
      ensures progress == Escaped(Cancellation) || progress == Escaped(RestoreFailure) ==> Cancels(b)
    {
      ghost var before := workspace;
      r := Open(emitted, kinds, start, c.id, effect);
      var result := RunTool(c.id, effect, b);
      run := result;
      r, progress := SeeThrough(r, kinds, start, c, effect, result, b, before);
    }

    /** One call of an admitted turn: replay it, refuse it, answer it or run it. */
    method StepCall(emitted: seq<Event>, ghost kinds: seq<Kind>, ghost start: nat, c: Call, p: Prepared, turn: Turn,
                    b: Behaviour)
      returns (r: seq<Event>, progress: Progress, ghost run: RunResult)
      requires Emitted(emitted, kinds, start) && cfg.limits.maxOutputBytes >= MAX_WIDTH
      modifies this, events
      ensures var done := Step(old(S()), c, p, turn, cfg, run, b);
              && S() == done.state && progress == done.progress
              && (!progress.Escaped? ==> Emitted(r, kinds + done.kinds, start))
      ensures ran == old(ran) || (ran == old(ran) + [c.id] && p.Fresh? && PlausibleAt(cfg, p, b, run))
      ensures progress == Escaped(Cancellation) || progress == Escaped(RestoreFailure) ==> Cancels(b)
    {
      run := CancelledRun;
      if c.id in outcomes {
        var prior := outcomes[c.id].completion;
        r := Emit(emitted, kinds, start, ToolCompleted(c.id, prior));
        transcript := transcript + [ToolMsg(c.id, prior)];
        return r, Continue, run;
      }
      if c.id in turn.decisions && !turn.decisions[c.id] {
        r := Settle(emitted, kinds, start, c, Errored("approval_rejected"));
        return r, Continue, run;
      }
      if p.Repeat? || p.validation.Unusable? { return emitted, Escaped(Unprepared), run; }
      var effect := p.validation.effect;
      if effect.Interaction? {
        r := Settle(emitted, kinds, start, c, Interact(turn, c.id));
        return r, Continue, run;
      }
      if SideEffecting(effect) {
        var refused := CreateCheckpoint(c.id, b);
        if refused.Some? {
          r := Stop(emitted, kinds, start, c.id, refused.value);
          return r, Terminal, run;
        }
      }
      r, progress, run := PerformCall(emitted, kinds, start, c, effect, b);
    }

    // ---------- The turn ----------

    method AskApprovals(turn: Turn, prepared: seq<Prepared>) returns (emitted: seq<Event>)
      requires |prepared| == |turn.calls|
      requires forall i :: 0 <= i < |prepared| ==> prepared[i] == Preparation(turn.calls, outcomes, cfg.prepare, i)
      modifies events
      ensures Emitted(emitted, Awaiting(turn, outcomes, cfg.prepare, |turn.calls|), old(events.sequence))
    {
      emitted := [];
      ghost var start := events.sequence;
      for i := 0 to |prepared|
        invariant Emitted(emitted, Awaiting(turn, outcomes, cfg.prepare, i), start)
      {
        var p, id := prepared[i], turn.calls[i].id;
        ghost var asked := Awaiting(turn, outcomes, cfg.prepare, i);
        assert asked + [] == asked;
        if p.Fresh? && p.validation.Ready? && RequiresApproval(turn.mode, p.validation.effect) && id !in turn.decisions {
          emitted := Emit(emitted, asked, start, ApprovalRequired(id));
        }
      }
    }

    /** Step `i` of an admitted turn; `runs` grows by what its tool yields. */
    method TakeStep(emitted: seq<Event>, ghost start: nat, turn: Turn, prepared: Prepared, i: nat, ghost s: State,
                    ghost runs: seq<RunResult>)
      returns (r: seq<Event>, progress: Progress, ghost runs': seq<RunResult>)
      requires i < |turn.calls| && cfg.limits.maxOutputBytes >= MAX_WIDTH
      requires OnTrack(turn, s, runs, i, Continue, emitted, start)
      requires prepared == Preparation(turn.calls, s.outcomes, cfg.prepare, i)
      modifies this, events
      ensures OnTrack(turn, s, runs', i + 1, progress, r, start) && Blames(turn, progress)
    {
      ghost var run;
      ghost var done := Steps(s, TurnStep(turn, cfg, runs, s.outcomes), i);
      r, progress, run := StepCall(emitted, done.kinds, start, turn.calls[i], prepared, turn, turn.behaviours[i]);
      NextStep(s, turn, cfg, runs, s.outcomes, i, run);
      GainedNext(s.ran, old(ran), ran, turn.calls[i].id);
      ExplainStep(cfg, turn, s.outcomes, runs, Gained(s.ran, old(ran)), i, run, Gained(s.ran, ran));
      runs' := runs[i := run];
    }

    /** The executor stands where these steps lead. */
    ghost predicate Reached(done: TurnResult, progress: Progress, emitted: seq<Event>, start: nat)
      reads this, events
    {
      && S() == done.state && done.progress == progress && done.semanticFailures == 0
      && (!progress.Escaped? ==> Emitted(emitted, done.kinds, start))
    }

    /** It stands where the first `n` steps of the turn lead from `s`, and the runs explain its log. */
    ghost predicate OnTrack(turn: Turn, s: State, runs: seq<RunResult>, n: nat, progress: Progress, emitted: seq<Event>,
                            start: nat)
      reads this, events
    {
      && Explained(cfg, turn, s.outcomes, runs, Gained(s.ran, ran), n) && s.ran <= ran
      && Reached(Steps(s, TurnStep(turn, cfg, runs, s.outcomes), n), progress, emitted, start)
    }

    lemma StaysOnTrack(turn: Turn, s: State, runs: seq<RunResult>, n: nat, progress: Progress, emitted: seq<Event>,
                       start: nat)
      requires n <= |turn.calls| && OnTrack(turn, s, runs, n, progress, emitted, start) && !progress.Continue?
      ensures OnTrack(turn, s, runs, |turn.calls|, progress, emitted, start)
    {
      ExplainedFurther(cfg, turn, s.outcomes, runs, Gained(s.ran, ran), n, |turn.calls|);
      StepsStay(s, TurnStep(turn, cfg, runs, s.outcomes), n, |turn.calls|);
    }

    lemma StartsOnTrack(turn: Turn)
      requires |turn.calls| == |turn.behaviours|
      ensures OnTrack(turn, S(), NoRuns(turn), 0, Continue, [], events.sequence)
    {
      NoRunsExplained(cfg, turn, outcomes, 0);
    }

    /** The calls of an admitted turn, in order, up to the first that does not continue. */
    method RunCalls(turn: Turn, prepared: seq<Prepared>) returns (report: Report, ghost runs: seq<RunResult>)
      requires |prepared| == |turn.calls| == |turn.behaviours| && cfg.limits.maxOutputBytes >= MAX_WIDTH
      requires forall i :: 0 <= i < |prepared| ==> prepared[i] == Preparation(turn.calls, outcomes, cfg.prepare, i)
      modifies this, events
      ensures Explained(cfg, turn, old(outcomes), runs, Gained(old(ran), ran), |turn.calls|)
      ensures report.Thrown? ==> Blames(turn, Escaped(report.cause))
      ensures var r := Steps(old(S()), TurnStep(turn, cfg, runs, old(outcomes)), |turn.calls|);
              S() == r.state && Tells(report, r, old(events.sequence))
    {
      var emitted, progress := [], Continue;
      ghost var s, start := S(), events.sequence;
      runs := NoRuns(turn);
      StartsOnTrack(turn);
      for i := 0 to |prepared|
        invariant OnTrack(turn, s, runs, i, Continue, emitted, start) && progress.Continue?
      {
        emitted, progress, runs := TakeStep(emitted, start, turn, prepared[i], i, s, runs);
        if !progress.Continue? {
          StaysOnTrack(turn, s, runs, i + 1, progress, emitted, start);
          break;
        }
      }
      report := if progress.Escaped? then Thrown(progress.cause) else Report(emitted, progress.Terminal?, 0);
    }

    /** An admitted turn: ask for the approvals it lacks, or run its calls. */
    method ProceedTurn(turn: Turn, prepared: seq<Prepared>) returns (report: Report, ghost runs: seq<RunResult>)
      requires |prepared| == |turn.calls| == |turn.behaviours| && cfg.limits.maxOutputBytes >= MAX_WIDTH
      requires forall i :: 0 <= i < |prepared| ==> prepared[i] == Preparation(turn.calls, outcomes, cfg.prepare, i)
      modifies this, events
      ensures Explained(cfg, turn, old(outcomes), runs, Gained(old(ran), ran), |turn.calls|)
      ensures report.Thrown? ==> Blames(turn, Escaped(report.cause))
      ensures var r := Proceed(old(S()), turn, cfg, runs); S() == r.state && Tells(report, r, old(events.sequence))
    {
      var awaiting := AskApprovals(turn, prepared);
      if awaiting != [] {
        runs := NoRuns(turn);
        NoRunsExplained(cfg, turn, outcomes, |turn.calls|);
        report := Report(awaiting, true, 0);
      } else {
        assert |Awaiting(turn, outcomes, cfg.prepare, |turn.calls|)| == 0 && events.sequence == old(events.sequence);
        assert S() == old(S());
        report, runs := RunCalls(turn, prepared);
      }
    }

    /** A whole turn is what the specification says, with the events numbered consecutively. */
    method ExecuteTurn(turn: Turn) returns (report: Report, ghost runs: seq<RunResult>)
      requires |turn.calls| == |turn.behaviours| && cfg.limits.maxOutputBytes >= MAX_WIDTH
      modifies this, events
      ensures Explained(cfg, turn, old(outcomes), runs, Gained(old(ran), ran), |turn.calls|)
      ensures report.Thrown? ==> Blames(turn, Escaped(report.cause))
      ensures var r := ToolTurn.Execute(old(S()), turn, cfg, runs); S() == r.state && Tells(report, r, old(events.sequence))
    {
      runs := NoRuns(turn);
      NoRunsExplained(cfg, turn, outcomes, |turn.calls|);
      var conflict := FindConflict(turn);
      if conflict.Some? {
        report := RejectConflictingTurn(turn, conflict.value);
        return;
      }
      var prepared := PrepareCalls(turn.calls);
      PreparedIsValid(turn, prepared, outcomes, cfg.prepare);
      if turn.invalid != [] || AnyUnusable(prepared) {
        report := RejectInvalidTurn(turn, prepared);
      } else {
        report, runs := ProceedTurn(turn, prepared);
      }
    }
  }

  predicate AnyUnusable(prepared: seq<Prepared>) {
    exists i :: 0 <= i < |prepared| && prepared[i].Fresh? && prepared[i].validation.Unusable?
  }

  lemma PreparedIsValid(turn: Turn, prepared: seq<Prepared>, outcomes: map<string, Outcome>, prepare: Call -> Validation)
    requires |prepared| == |turn.calls|
    requires forall i :: 0 <= i < |prepared| ==> prepared[i] == Preparation(turn.calls, outcomes, prepare, i)
    ensures Valid(turn, outcomes, prepare) <==> turn.invalid == [] && !AnyUnusable(prepared)
  {
    forall i | 0 <= i < |prepared|
      ensures UnusableAt(turn.calls, outcomes, prepare, i) <==>
        prepared[i].Fresh? && prepared[i].validation.Unusable?
    {
    }
  }

  lemma {:induction false} StepsAgree(s: State, f: (State, nat) -> TurnResult, g: (State, nat) -> TurnResult, n: nat)
    requires forall t: State, i: nat :: i < n ==> f(t, i) == g(t, i)
    ensures Steps(s, f, n) == Steps(s, g, n)
  {
    if n > 0 { StepsAgree(s, f, g, n - 1); }
  }

  /** Learning what call `i` yields does not change what came before it. */
  lemma NextStep(s: State, turn: Turn, cfg: Config, runs: seq<RunResult>, outcomes: map<string, Outcome>, i: nat,
                 run: RunResult)
    requires Fitted(turn, runs) && i < |turn.calls|
    requires Steps(s, TurnStep(turn, cfg, runs, outcomes), i).progress.Continue?
    ensures var done := Steps(s, TurnStep(turn, cfg, runs, outcomes), i);
            Steps(s, TurnStep(turn, cfg, runs[i := run], outcomes), i + 1)
            == Then(done, Step(done.state, turn.calls[i], Preparation(turn.calls, outcomes, cfg.prepare, i), turn, cfg, run,
                               turn.behaviours[i]))
    ensures Steps(s, TurnStep(turn, cfg, runs[i := run], outcomes), i + 1).semanticFailures == 0
  {
    StepsAgree(s, TurnStep(turn, cfg, runs, outcomes), TurnStep(turn, cfg, runs[i := run], outcomes), i);
  }

  lemma {:induction false} StepsStay(s: State, step: (State, nat) -> TurnResult, i: nat, n: nat)
    requires i <= n && !Steps(s, step, i).progress.Continue?
    ensures Steps(s, step, n) == Steps(s, step, i)
  {
    if i < n { StepsStay(s, step, i, n - 1); }
  }

  lemma {:induction false} FirstConflict(calls: seq<Call>, outcomes: map<string, Outcome>, i: nat)
    requires i < |calls| && CallConflict(calls, outcomes, i).None? && !CallAgrees(calls, outcomes, i)
    ensures forall n :: i < n <= |calls| ==> CallConflict(calls, outcomes, n) == Some(calls[i].id)
  {
    for n := i + 1 to |calls|
      invariant forall m :: i < m <= n ==> CallConflict(calls, outcomes, m) == Some(calls[i].id)
    {
    }
  }

  lemma {:induction false} FirstInvalid(calls: seq<Call>, invalid: seq<InvalidCall>, outcomes: map<string, Outcome>, i: nat)
    requires i < |invalid| && InvalidConflict(calls, invalid, outcomes, i).None?
    requires !InvalidAgrees(calls, invalid, outcomes, i)
    ensures forall n :: i < n <= |invalid| ==> InvalidConflict(calls, invalid, outcomes, n) == Some(invalid[i].id)
  {
    for n := i + 1 to |invalid|
      invariant forall m :: i < m <= n ==> InvalidConflict(calls, invalid, outcomes, m) == Some(invalid[i].id)
    {
    }
  }
}
