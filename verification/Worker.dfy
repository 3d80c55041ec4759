/** The worker's attempts as interleaved steps over a shared pool of sandbox permits and a queue with fenced leases. */
module Worker {
  import opened Wrappers

  // ---------- Leases ----------

  datatype RunLease = RunLease(tenant: nat, workspace: nat, run: nat, worker: nat, token: nat, expires: nat)

  datatype WriterLease = WriterLease(tenant: nat, workspace: nat, run: nat, worker: nat, runToken: nat, expires: nat)

  predicate Matches(w: WriterLease, lease: RunLease) {
    && w.tenant == lease.tenant && w.workspace == lease.workspace && w.run == lease.run && w.worker == lease.worker
    && w.runToken == lease.token && w.expires <= lease.expires
  }

  // ---------- One attempt ----------

  datatype Failure = Cancelled | TimedOut | Domain(code: string) | Crash

  datatype Heartbeat = NoHeartbeat | Beating | Stopped(failure: Failure)

  /** Where an attempt is waiting. `Waiting(true)` is the moment between the acquire task taking a permit and the
      attempt being resumed; the last three are its clean-up, in order. */
  datatype Pc =
    | Claimed | Leased | Loading | Waiting(acquired: bool) | Ready | Restoring | Executing | Finishing
    | Cancelling(failure: Failure) | Reporting(failure: Failure)
    | FreeingSlot | StoppingHeartbeat | ReleasingWriter | Done

  /** The restore or execute task last started. An attempt that is cancelled, times out, or finds its heartbeat task
      cancelled while it waits leaves the task behind: it is then a stray, and lives on by itself. */
  datatype Operation = Idle | Live | Ended | Stray | StrayEnded

  datatype Reply = Confirmed | ReplyLost(failure: Failure) | Refused(failure: Failure)

  /** A finish request: the attempt's own outcome, or a failed or cancelled one after a failure. */
  datatype Request = Outcome(reply: Reply) | Reported(failure: Failure, reply: Reply)

  /** `slot` is the attempt's own note that it holds a permit; `releases` counts writer-lease releases attempted; `sent`
      lists the finish requests it has made. */
  datatype Attempt = Attempt(pc: Pc, lease: RunLease, writer: Option<WriterLease>, heartbeat: Heartbeat, slot: bool,
                             releases: nat, operation: Operation, sent: seq<Request>)

  /** What the attempts share: free permits, permits nobody will give back, acquire tasks left behind by attempts that
      left while waiting, and the queue: tokens that own a run, the next token, and the finishes accepted. */
  datatype Pool = Pool(free: nat, leaked: nat, orphans: nat, owned: set<nat>, nextToken: nat, accepted: seq<nat>)

  /** One atomic step of an attempt, with whatever its environment answers. */
  datatype Move =
    | Start(lease: RunLease, cancellationRequested: bool)
    | AcquireWriter(granted: Option<WriterLease>)
    | Load
    | TakePermit
    | Resume
    | Discard
    | CancelWaiting
    | CancelAcquired
    | BeginRestore
    | BeginExecute
    | OperationEnds
    | Abandon(failure: Failure)
    | Executed
    | Fail(failure: Failure)
    | HeartbeatStops(failure: Failure)
    | Interrupt(failure: Failure)
    | Quit
    | Desert
    | Finish(reply: Reply)
    | CancelExecutor(ok: bool)
    | Report(reply: Reply)
    | FreeSlot
    | StopHeartbeat(failure: Failure)
    | ReleaseWriter

  predicate Lost(code: string) { code == "run_lease_lost" || code == "run_lease_expired" }

  /** Which failures cancel the executor, and which report a finish. */
  predicate CancelsExecutor(f: Failure) {
    f.Cancelled? || f.TimedOut? || (f.Domain? && (Lost(f.code) || f.code == "run_cancellation_requested"))
  }

  predicate ReportsFinish(f: Failure) { f.TimedOut? || f.Crash? || (f.Domain? && !Lost(f.code)) }

  /** The exception handler a failure reaches. */
  function Handle(a: Attempt, f: Failure): Attempt {
    a.(pc := if CancelsExecutor(f) then Cancelling(f) else Reporting(f))
  }

  /** A finish is accepted only from the token that owns the run, and ends that ownership. */
  function Accept(p: Pool, token: nat): Pool { p.(owned := p.owned - {token}, accepted := p.accepted + [token]) }

  predicate CanReply(p: Pool, token: nat, r: Reply) { r.Refused? || token in p.owned }

  function Replied(p: Pool, token: nat, r: Reply): Pool { if r.Refused? then p else Accept(p, token) }

  /** Phases that wait for a restore or execute task. */
  predicate Operating(pc: Pc) { pc.Restoring? || pc.Executing? }

  /** Phases whose wait also watches the heartbeat. */
  predicate Watched(pc: Pc) { pc.Loading? || pc == Waiting(false) || Operating(pc) }

  predicate Enabled(a: Attempt, p: Pool, m: Move) {
    match m
    case Start(lease, _) => a.pc.Claimed? && lease.token == a.lease.token
    case AcquireWriter(_) => a.pc.Leased?
    case Load => a.pc.Loading? && a.heartbeat.Beating?
    case TakePermit => a.pc == Waiting(false) && p.free > 0
    case Resume => a.pc == Waiting(true) && a.heartbeat.Beating?
    case Discard => a.pc == Waiting(true) && a.heartbeat.Stopped?
    case CancelWaiting => a.pc == Waiting(false)
    case CancelAcquired => a.pc == Waiting(true)
    case BeginRestore => a.pc.Ready?
    case BeginExecute => a.pc.Ready? || (a.pc.Restoring? && a.operation.Ended? && a.heartbeat.Beating?)
    case OperationEnds => a.operation.Live? || a.operation.Stray?
    case Abandon(f) => Operating(a.pc) && a.operation.Live? && (f.Cancelled? || (f.TimedOut? && a.pc.Executing?))
    case Executed => a.pc.Executing? && a.operation.Ended? && a.heartbeat.Beating?
    case Fail(_) =>
      || a.pc.Claimed? || a.pc.Leased? || a.pc.Loading? || a.pc.Ready? || (Operating(a.pc) && a.operation.Ended?)
    case HeartbeatStops(_) => a.heartbeat.Beating?
    case Interrupt(f) =>
      && Watched(a.pc) && a.heartbeat.Stopped? && !a.heartbeat.failure.Cancelled? && !f.Cancelled?
      && (Operating(a.pc) ==> a.operation.Ended?)
    case Quit => Watched(a.pc) && a.heartbeat == Stopped(Cancelled) && !a.operation.Live?
    case Desert => Operating(a.pc) && a.heartbeat == Stopped(Cancelled) && a.operation.Live?
    case Finish(reply) => a.pc.Finishing? && CanReply(p, a.lease.token, reply)
    case CancelExecutor(_) => a.pc.Cancelling?
    case Report(reply) => a.pc.Reporting? && CanReply(p, a.lease.token, reply)
    case FreeSlot => a.pc.FreeingSlot?
    case StopHeartbeat(f) => a.pc.StoppingHeartbeat? && (a.heartbeat.Stopped? ==> f == a.heartbeat.failure)
    case ReleaseWriter => a.pc.ReleasingWriter?
  }

  /** Awaiting the cancelled heartbeat swallows only cancellations and domain errors. */
  predicate Suppressed(f: Failure) { f.Cancelled? || f.Domain? }

  /** What a step does to the attempt. `Interrupt` cancels the phase's task and waits for it to end. A heartbeat task that
      itself ended cancelled allows neither: asking it for its error raises, and the attempt leaves at once, by `Quit`, or
      by `Desert` when a restore or execute task is still running. Cancelling the executor only asks its task to stop. */
  function Step(a: Attempt, m: Move): Attempt {
    match m
    case Start(lease, cancelled) => a.(lease := lease, pc := if cancelled then Finishing else Leased)
    case AcquireWriter(granted) =>
      if granted.None? then Handle(a, Domain("workspace_lease_conflict"))
      else if !Matches(granted.value, a.lease) then Handle(a, Domain("workspace_lease_invalid"))
      else a.(writer := granted, heartbeat := Beating, pc := Loading)
    case Load => a.(pc := Waiting(false))
    case TakePermit => a.(pc := Waiting(true))
    case Resume => a.(pc := Ready, slot := true)
    case Discard => if a.heartbeat.Stopped? then Handle(a, a.heartbeat.failure) else a
    case CancelWaiting => Handle(a, Cancelled)
    case CancelAcquired => Handle(a, Cancelled)
    case BeginRestore => a.(pc := Restoring, operation := Live)
    case BeginExecute => a.(pc := Executing, operation := Live)
    case OperationEnds => a.(operation := if a.operation.Live? then Ended else StrayEnded)
    case Abandon(f) => Handle(a, f).(operation := Stray)
    case Executed => a.(pc := Finishing)
    case Fail(f) => Handle(a, f)
    case HeartbeatStops(f) => a.(heartbeat := Stopped(f))
    case Interrupt(f) => Handle(a, f)
    case Quit => Handle(a, Cancelled)
    case Desert => Handle(a, Cancelled).(operation := Stray)
    case Finish(reply) =>
      var b := a.(sent := a.sent + [Outcome(reply)]);
      if reply.Confirmed? then b.(pc := FreeingSlot) else Handle(b, reply.failure)
    case CancelExecutor(ok) =>
      a.(pc := if ok && a.pc.Cancelling? && ReportsFinish(a.pc.failure) then Reporting(a.pc.failure) else FreeingSlot)
    case Report(reply) =>
      a.(pc := FreeingSlot, sent := if a.pc.Reporting? then a.sent + [Reported(a.pc.failure, reply)] else a.sent)
    case FreeSlot => a.(pc := StoppingHeartbeat, slot := false)
    case StopHeartbeat(f) =>
      if a.heartbeat.NoHeartbeat? then a.(pc := ReleasingWriter)
      else a.(heartbeat := Stopped(f), pc := if Suppressed(f) then ReleasingWriter else Done)
    case ReleaseWriter => a.(pc := Done, releases := a.releases + if a.writer.Some? then 1 else 0)
  }

  /** What a step does to the pool. */
  function Effect(a: Attempt, p: Pool, m: Move): Pool
    requires Enabled(a, p, m)
  {
    match m
    case TakePermit => p.(free := p.free - 1)
    case Discard => p.(leaked := p.leaked + 1)
    case CancelWaiting => p.(orphans := p.orphans + 1)
    case CancelAcquired => p.(leaked := p.leaked + 1)
    case Quit => if a.pc.Waiting? then p.(orphans := p.orphans + 1) else p
    case Finish(reply) => Replied(p, a.lease.token, reply)
    case Report(reply) => Replied(p, a.lease.token, reply)
    case FreeSlot => if a.slot then p.(free := p.free + 1) else p
    case _ => p
  }

  // ---------- All attempts together ----------

  datatype Worker = Worker(attempts: seq<Attempt>, pool: Pool)

  datatype Event =
    | Claim(lease: RunLease)
    | Move(i: nat, move: Move)
    | OrphanTakes
    | Expire(token: nat)

  function Fresh(lease: RunLease): Attempt { Attempt(Claimed, lease, None, NoHeartbeat, false, 0, Idle, []) }

  function Initial(total: nat): Worker { Worker([], Pool(total, 0, 0, {}, 0, [])) }

  predicate Possible(w: Worker, e: Event) {
    match e
    case Claim(lease) => lease.token == w.pool.nextToken
    case Move(i, m) => i < |w.attempts| && Enabled(w.attempts[i], w.pool, m)
    case OrphanTakes => w.pool.orphans > 0 && w.pool.free > 0
    case Expire(_) => true
  }

  function Next(w: Worker, e: Event): Worker
    requires Possible(w, e)
  {
    match e
    case Claim(lease) =>
      Worker(w.attempts + [Fresh(lease)],
             w.pool.(owned := w.pool.owned + {lease.token}, nextToken := w.pool.nextToken + 1))
    case Move(i, m) =>
      Worker(w.attempts[i := Step(w.attempts[i], m)], Effect(w.attempts[i], w.pool, m))
    case OrphanTakes =>
      w.(pool := w.pool.(free := w.pool.free - 1, leaked := w.pool.leaked + 1, orphans := w.pool.orphans - 1))
    case Expire(token) => w.(pool := w.pool.(owned := w.pool.owned - {token}))
  }

  /** The worker after a run of events, if every one of them was possible. */
  function After(total: nat, events: seq<Event>): Option<Worker> {
    if events == [] then Some(Initial(total))
    else
      var before := After(total, events[..|events| - 1]);
      if before.Some? && Possible(before.value, events[|events| - 1])
      then Some(Next(before.value, events[|events| - 1])) else None
  }

  // ---------- Sums over attempts ----------

  function Sum(attempts: seq<Attempt>, f: Attempt -> nat): nat {
    if attempts == [] then 0 else Sum(attempts[..|attempts| - 1], f) + f(attempts[|attempts| - 1])
  }

  lemma {:induction false} SumUpdate(attempts: seq<Attempt>, f: Attempt -> nat, i: nat, a: Attempt)
    requires i < |attempts|
    ensures Sum(attempts[i := a], f) + f(attempts[i]) == Sum(attempts, f) + f(a)
  {
    var last := |attempts| - 1;
    if i < last {
      SumUpdate(attempts[..last], f, i, a);
      assert attempts[i := a][..last] == attempts[..last][i := a];
    } else {
      assert attempts[i := a][..last] == attempts[..last];
    }
  }

  lemma SumAppend(attempts: seq<Attempt>, f: Attempt -> nat, a: Attempt)
    ensures Sum(attempts + [a], f) == Sum(attempts, f) + f(a)
  {
    assert (attempts + [a])[..|attempts|] == attempts;
  }

  lemma {:induction false} SumAt(attempts: seq<Attempt>, f: Attempt -> nat, i: nat)
    requires i < |attempts|
    ensures f(attempts[i]) <= Sum(attempts, f)
  {
    if i < |attempts| - 1 { SumAt(attempts[..|attempts| - 1], f, i); }
  }

  lemma {:induction false} SumBelow(attempts: seq<Attempt>, f: Attempt -> nat, g: Attempt -> nat)
    requires forall i :: 0 <= i < |attempts| ==> f(attempts[i]) <= g(attempts[i])
    ensures Sum(attempts, f) <= Sum(attempts, g)
  {
    if attempts != [] { SumBelow(attempts[..|attempts| - 1], f, g); }
  }

  // ---------- What every attempt keeps ----------

  /** The attempt has a permit, noted or not yet. */
  function Holds(a: Attempt): nat { if a.slot || a.pc == Waiting(true) then 1 else 0 }

  function Holders(attempts: seq<Attempt>): nat { Sum(attempts, Holds) }

  /** Its own outcome at most once and first, at most one report after it, none after a confirmed reply, and none for a
      failure that says the lease is gone. */
  predicate FewFinishes(sent: seq<Request>) {
    && |sent| <= 2
    && (|sent| == 2 ==> sent[0].Outcome? && !sent[0].reply.Confirmed? && sent[1].Reported?)
    && forall k :: 0 <= k < |sent| && sent[k].Reported? ==> ReportsFinish(sent[k].failure)
  }

  predicate SentOk(a: Attempt) {
    match a.pc
    case Cancelling(_) => a.sent == [] || (|a.sent| == 1 && a.sent[0].Outcome? && !a.sent[0].reply.Confirmed?)
    case Reporting(f) =>
      && ReportsFinish(f)
      && (a.sent == [] || (|a.sent| == 1 && a.sent[0].Outcome? && !a.sent[0].reply.Confirmed?))
    case FreeingSlot => FewFinishes(a.sent)
    case StoppingHeartbeat => FewFinishes(a.sent)
    case ReleasingWriter => FewFinishes(a.sent)
    case Done => FewFinishes(a.sent)
    case _ => a.sent == []
  }

  /** An operation runs in its phase, or is a stray of an attempt that has left it. */
  predicate OperationOk(a: Attempt) {
    match a.operation
    case Idle => !Operating(a.pc)
    case Live => Operating(a.pc)
    case Ended =>
      !(a.pc.Claimed? || a.pc.Leased? || a.pc.Loading? || a.pc.Waiting? || a.pc.Ready?) && a.writer.Some?
    case _ =>
      && (a.pc.Cancelling? || a.pc.Reporting? || a.pc.FreeingSlot? || a.pc.StoppingHeartbeat? || a.pc.ReleasingWriter?
          || a.pc.Done?)
      && a.writer.Some?
  }

  /** The writer lease an attempt has: a matching one, with its heartbeat, from the moment it was validated. */
  predicate LeaseOk(a: Attempt) {
    && (a.writer.Some? ==> Matches(a.writer.value, a.lease))
    && (a.writer.Some? <==> !a.heartbeat.NoHeartbeat?)
    && (Watched(a.pc) || a.pc.Waiting? || a.pc.Ready? ==> a.writer.Some?)
    && (a.pc.Claimed? || a.pc.Leased? ==> a.writer.None?)
  }

  /** When it has noted a permit. */
  predicate SlotOk(a: Attempt) {
    && (a.slot ==> !(a.pc.Claimed? || a.pc.Leased? || a.pc.Loading? || a.pc.Waiting? || a.pc.StoppingHeartbeat?
                     || a.pc.ReleasingWriter? || a.pc.Done?))
    && (a.pc.Ready? || Operating(a.pc) ==> a.slot)
  }

  /** When it has released the lease. */
  predicate ReleaseOk(a: Attempt) {
    && a.releases == (if a.pc.Done? && a.writer.Some? && a.heartbeat.Stopped? && Suppressed(a.heartbeat.failure)
                      then 1 else 0)
    && (a.pc.ReleasingWriter? && a.writer.Some? ==> a.heartbeat.Stopped? && Suppressed(a.heartbeat.failure))
    && (a.pc.Done? ==> !a.heartbeat.Beating?)
  }

  /** What holds of every attempt wherever it stands. */
  predicate AttemptOk(a: Attempt) { LeaseOk(a) && SlotOk(a) && ReleaseOk(a) }

  /** Free, held and lost permits add up across every step. */
  lemma StepConserves(a: Attempt, p: Pool, m: Move)
    requires AttemptOk(a) && Enabled(a, p, m)
    ensures Effect(a, p, m).free + Holds(Step(a, m)) + Effect(a, p, m).leaked == p.free + Holds(a) + p.leaked
  {
  }

  lemma StepKeepsLease(a: Attempt, p: Pool, m: Move)
    requires LeaseOk(a) && Enabled(a, p, m)
    ensures LeaseOk(Step(a, m))
  {
  }

  lemma StepKeepsSlot(a: Attempt, p: Pool, m: Move)
    requires SlotOk(a) && Enabled(a, p, m)
    ensures SlotOk(Step(a, m))
  {
  }

  lemma StepKeepsReleases(a: Attempt, p: Pool, m: Move)
    requires LeaseOk(a) && ReleaseOk(a) && Enabled(a, p, m)
    ensures ReleaseOk(Step(a, m))
  {
  }

  lemma StepKeepsOk(a: Attempt, p: Pool, m: Move)
    requires AttemptOk(a) && Enabled(a, p, m)
    ensures AttemptOk(Step(a, m))
  {
    StepKeepsLease(a, p, m);
    StepKeepsSlot(a, p, m);
    StepKeepsReleases(a, p, m);
  }

  lemma StepKeepsOperation(a: Attempt, p: Pool, m: Move)
    requires AttemptOk(a) && OperationOk(a) && Enabled(a, p, m)
    ensures OperationOk(Step(a, m))
  {
  }

  lemma StepKeepsSent(a: Attempt, p: Pool, m: Move)
    requires SentOk(a) && Enabled(a, p, m)
    ensures SentOk(Step(a, m))
  {
  }

  predicate Sound(a: Attempt) { AttemptOk(a) && OperationOk(a) && SentOk(a) }

  // ---------- Every reachable state ----------

  /** Tokens are fresh, an accepted one no longer owns its run, and none is accepted twice. */
  ghost predicate QueueOk(p: Pool) {
    && (forall t :: t in p.owned ==> t < p.nextToken)
    && (forall i :: 0 <= i < |p.accepted| ==> p.accepted[i] < p.nextToken && p.accepted[i] !in p.owned)
    && (forall i, j :: 0 <= i < j < |p.accepted| ==> p.accepted[i] != p.accepted[j])
  }

  ghost predicate AllOk(attempts: seq<Attempt>) { forall i :: 0 <= i < |attempts| ==> Sound(attempts[i]) }

  ghost predicate Inv(w: Worker, total: nat) {
    && AllOk(w.attempts) && QueueOk(w.pool)
    && w.pool.free + Holders(w.attempts) + w.pool.leaked == total
  }

  lemma AcceptKeepsQueue(p: Pool, token: nat, r: Reply)
    requires QueueOk(p) && CanReply(p, token, r)
    ensures QueueOk(Replied(p, token, r))
  {
  }

  lemma EffectKeepsQueue(a: Attempt, p: Pool, m: Move)
    requires QueueOk(p) && Enabled(a, p, m)
    ensures QueueOk(Effect(a, p, m))
  {
    match m
    case Finish(reply) => AcceptKeepsQueue(p, a.lease.token, reply);
    case Report(reply) => AcceptKeepsQueue(p, a.lease.token, reply);
    case _ =>
  }

  lemma UpdateKeepsOk(attempts: seq<Attempt>, i: nat, a: Attempt)
    requires AllOk(attempts) && i < |attempts| && Sound(a)
    ensures AllOk(attempts[i := a])
  {
  }

  lemma ClaimKeepsInv(w: Worker, lease: RunLease, total: nat)
    requires Inv(w, total) && lease.token == w.pool.nextToken
    ensures Inv(Next(w, Claim(lease)), total)
  {
    SumAppend(w.attempts, Holds, Fresh(lease));
    assert Sound(Fresh(lease)) && Holds(Fresh(lease)) == 0;
  }

  lemma MoveKeepsInv(w: Worker, i: nat, m: Move, total: nat)
    requires Inv(w, total) && i < |w.attempts| && Enabled(w.attempts[i], w.pool, m)
    ensures Inv(Next(w, Move(i, m)), total)
  {
    var a, p := w.attempts[i], w.pool;
    StepConserves(a, p, m);
    StepKeepsOk(a, p, m);
    StepKeepsOperation(a, p, m);
    StepKeepsSent(a, p, m);
    EffectKeepsQueue(a, p, m);
    SumUpdate(w.attempts, Holds, i, Step(a, m));
    UpdateKeepsOk(w.attempts, i, Step(a, m));
  }

  lemma NextKeepsInv(w: Worker, e: Event, total: nat)
    requires Inv(w, total) && Possible(w, e)
    ensures Inv(Next(w, e), total)
  {
    match e
    case Claim(lease) => ClaimKeepsInv(w, lease, total);
    case Move(i, m) => MoveKeepsInv(w, i, m, total);
    case _ =>
  }

  lemma {:induction false} Reachable(total: nat, events: seq<Event>)
    requires After(total, events).Some?
    ensures Inv(After(total, events).value, total)
  {
    if events != [] {
      var front := events[..|events| - 1];
      Reachable(total, front);
      NextKeepsInv(After(total, front).value, events[|events| - 1], total);
    }
  }

  // ---------- Laws of every run ----------

  /** The events that lose a permit: a heartbeat that stops, or a cancellation that arrives, between the acquire task
      taking the permit and the attempt noting it; and an acquire task that outlived its attempt. */
  predicate Leaks(e: Event) { e.OrphanTakes? || (e.Move? && (e.move.Discard? || e.move.CancelAcquired?)) }

  function LeakCount(events: seq<Event>): nat {
    if events == [] then 0
    else LeakCount(events[..|events| - 1]) + if Leaks(events[|events| - 1]) then 1 else 0
  }

  lemma {:induction false} LeaksAreCounted(total: nat, events: seq<Event>)
    requires After(total, events).Some?
    ensures After(total, events).value.pool.leaked == LeakCount(events)
  {
    if events != [] { LeaksAreCounted(total, events[..|events| - 1]); }
  }

  /** Over every interleaving, free permits and attempts holding one add up to the configured number exactly when no
      event of the run lost a permit. */
  lemma PermitsAreConservedExactly(total: nat, events: seq<Event>)
    requires After(total, events).Some?
    ensures var w := After(total, events).value;
            && w.pool.free + Holders(w.attempts) + LeakCount(events) == total
            && (w.pool.free + Holders(w.attempts) == total <==> LeakCount(events) == 0)
  {
    Reachable(total, events);
    LeaksAreCounted(total, events);
  }

  /** So a release never exceeds the bound of the semaphore. */
  lemma ReleaseIsBounded(total: nat, events: seq<Event>, i: nat)
    requires After(total, events).Some? && i < |After(total, events).value.attempts|
    requires After(total, events).value.attempts[i].slot
    ensures After(total, events).value.pool.free < total
  {
    Reachable(total, events);
    SumAt(After(total, events).value.attempts, Holds, i);
  }

  // ---------- Operations ----------

  function InPhase(a: Attempt): nat { if a.operation.Live? then 1 else 0 }

  function Strays(a: Attempt): nat { if a.operation.Stray? then 1 else 0 }

  function Abandoned(a: Attempt): nat { if a.operation.Stray? || a.operation.StrayEnded? then 1 else 0 }

  /** Restore and execute tasks running now, whoever still waits for them. */
  function LiveOperations(w: Worker): nat { Sum(w.attempts, InPhase) + Sum(w.attempts, Strays) }

  predicate Leaves(m: Move) { m.Abandon? || m.Desert? }

  /** The events that leave an operation running: its attempt is cancelled, times out, or finds its heartbeat task
      cancelled. */
  predicate Abandons(e: Event) { e.Move? && Leaves(e.move) }

  function AbandonCount(events: seq<Event>): nat {
    if events == [] then 0
    else AbandonCount(events[..|events| - 1]) + if Abandons(events[|events| - 1]) then 1 else 0
  }

  lemma StepAbandons(a: Attempt, p: Pool, m: Move)
    requires AttemptOk(a) && OperationOk(a) && Enabled(a, p, m)
    ensures Abandoned(Step(a, m)) == Abandoned(a) + if Leaves(m) then 1 else 0
  {
  }

  lemma NextAbandons(w: Worker, e: Event)
    requires AllOk(w.attempts) && Possible(w, e)
    ensures Sum(Next(w, e).attempts, Abandoned) == Sum(w.attempts, Abandoned) + if Abandons(e) then 1 else 0
  {
    match e
    case Claim(lease) => SumAppend(w.attempts, Abandoned, Fresh(lease));
    case Move(i, m) =>
      assert Sound(w.attempts[i]);
      StepAbandons(w.attempts[i], w.pool, m);
      SumUpdate(w.attempts, Abandoned, i, Step(w.attempts[i], m));
    case _ =>
  }

  lemma {:induction false} AbandonsAreCounted(total: nat, events: seq<Event>)
    requires After(total, events).Some?
    ensures Sum(After(total, events).value.attempts, Abandoned) == AbandonCount(events)
  {
    if events != [] {
      var front := events[..|events| - 1];
      AbandonsAreCounted(total, front);
      Reachable(total, front);
      NextAbandons(After(total, front).value, events[|events| - 1]);
    }
  }

  /** No more operations run than there are permits, except for those left behind by attempts that left while they ran,
      one each. */
  lemma SandboxesAreBounded(total: nat, events: seq<Event>)
    requires After(total, events).Some?
    ensures var w := After(total, events).value;
            && Sum(w.attempts, InPhase) <= Holders(w.attempts) <= total
            && Sum(w.attempts, Strays) <= Sum(w.attempts, Abandoned) == AbandonCount(events)
            && LiveOperations(w) <= total + AbandonCount(events)
  {
    Reachable(total, events);
    AbandonsAreCounted(total, events);
    var attempts := After(total, events).value.attempts;
    forall i | 0 <= i < |attempts| ensures InPhase(attempts[i]) <= Holds(attempts[i]) { assert Sound(attempts[i]); }
    SumBelow(attempts, InPhase, Holds);
    SumBelow(attempts, Strays, Abandoned);
  }

  ghost predicate WasAbandoned(events: seq<Event>, i: nat) {
    exists k :: 0 <= k < |events| && Abandons(events[k]) && events[k].i == i
  }

  lemma WasAbandonedNext(events: seq<Event>, i: nat)
    requires events != []
    ensures var last := |events| - 1;
            WasAbandoned(events, i) <==>
              WasAbandoned(events[..last], i) || (Abandons(events[last]) && events[last].i == i)
  {
    var last := |events| - 1;
    if WasAbandoned(events[..last], i) {
      var k :| 0 <= k < last && Abandons(events[..last][k]) && events[..last][k].i == i;
      assert Abandons(events[k]) && events[k].i == i;
    }
    if WasAbandoned(events, i) {
      var k :| 0 <= k < |events| && Abandons(events[k]) && events[k].i == i;
      if k < last { assert Abandons(events[..last][k]); }
    }
  }

  /** An operation was left behind exactly when its attempt was cancelled, timed out, or found its heartbeat task
      cancelled while it ran. */
  lemma {:induction false} AbandonedExactly(total: nat, events: seq<Event>, i: nat)
    requires After(total, events).Some? && i < |After(total, events).value.attempts|
    ensures Abandoned(After(total, events).value.attempts[i]) == 1 <==> WasAbandoned(events, i)
  {
    var last := |events| - 1;
    var front, e := events[..last], events[last];
    var w := After(total, front).value;
    Reachable(total, front);
    WasAbandonedNext(events, i);
    if i < |w.attempts| {
      AbandonedExactly(total, front, i);
      assert Sound(w.attempts[i]);
      if e.Move? && e.i == i { StepAbandons(w.attempts[i], w.pool, e.move); }
    } else {
      NotYetAbandoned(total, front, i);
    }
  }

  lemma {:induction false} NotYetAbandoned(total: nat, events: seq<Event>, i: nat)
    requires After(total, events).Some? && i >= |After(total, events).value.attempts|
    ensures !WasAbandoned(events, i)
  {
    if events != [] {
      WasAbandonedNext(events, i);
      NotYetAbandoned(total, events[..|events| - 1], i);
    }
  }

  /** Every running restore or execute is under its attempt's permit and a writer lease that matches the run lease and
      has not been released, unless its attempt left while it ran. */
  lemma RestoreAndExecuteAreFenced(total: nat, events: seq<Event>, i: nat)
    requires After(total, events).Some? && i < |After(total, events).value.attempts|
    requires InPhase(After(total, events).value.attempts[i]) + Strays(After(total, events).value.attempts[i]) > 0
    ensures var a := After(total, events).value.attempts[i];
            && a.writer.Some? && Matches(a.writer.value, a.lease)
            && (WasAbandoned(events, i) || (a.slot && a.releases == 0 && Operating(a.pc)))
  {
    Reachable(total, events);
    assert Sound(After(total, events).value.attempts[i]);
    AbandonedExactly(total, events, i);
  }

  /** A finished attempt holds no permit and has released its validated writer lease exactly once, unless its heartbeat
      ended with an error the clean-up does not swallow: then not at all. */
  lemma WriterIsReleasedExactly(total: nat, events: seq<Event>, i: nat)
    requires After(total, events).Some? && i < |After(total, events).value.attempts|
    requires After(total, events).value.attempts[i].pc.Done?
    ensures var a := After(total, events).value.attempts[i];
            && Holds(a) == 0 && (a.writer.Some? <==> a.heartbeat.Stopped?)
            && a.releases == if a.writer.Some? && Suppressed(a.heartbeat.failure) then 1 else 0
  {
    Reachable(total, events);
  }

  // ---------- Finishes ----------

  lemma SentIsFew(a: Attempt)
    requires SentOk(a)
    ensures FewFinishes(a.sent)
  {
  }

  /** Over every run an attempt sends at most two finish requests: its outcome, and one report if that was not confirmed;
      and it never reports on a lease it knows to be lost or expired. */
  lemma FinishesAreFew(total: nat, events: seq<Event>, i: nat)
    requires After(total, events).Some? && i < |After(total, events).value.attempts|
    ensures FewFinishes(After(total, events).value.attempts[i].sent)
  {
    Reachable(total, events);
    var a := After(total, events).value.attempts[i];
    assert Sound(a);
    SentIsFew(a);
  }

  /** With a queue that accepts a finish only from the owner, at most one finish per lease is accepted. */
  lemma OneFinishPerLease(total: nat, events: seq<Event>, i: nat, j: nat)
    requires After(total, events).Some? && i < j < |After(total, events).value.pool.accepted|
    ensures After(total, events).value.pool.accepted[i] != After(total, events).value.pool.accepted[j]
  {
    Reachable(total, events);
  }

  // ---------- The losses are real ----------

  lemma AfterNext(total: nat, events: seq<Event>, e: Event)
    requires After(total, events).Some? && Possible(After(total, events).value, e)
    ensures After(total, events + [e]) == Some(Next(After(total, events).value, e))
  {
    assert (events + [e])[..|events|] == events;
  }

  ghost function Grant(lease: RunLease): WriterLease {
    WriterLease(lease.tenant, lease.workspace, lease.run, lease.worker, lease.token, lease.expires)
  }

  /** Moves that someone else's cancellation or the clock makes the attempt take. */
  predicate CutsShort(m: Move) {
    m.Abandon? || m.CancelWaiting? || m.CancelAcquired? || (m.Fail? && (m.failure.Cancelled? || m.failure.TimedOut?))
  }

  /** A run in which no attempt is cancelled or times out while it waits. */
  predicate Undisturbed(events: seq<Event>) {
    forall k :: 0 <= k < |events| && events[k].Move? ==> !CutsShort(events[k].move)
  }

  /** One step of the newest attempt. */
  lemma Advance(events: seq<Event>, front: seq<Attempt>, a: Attempt, p: Pool, m: Move, b: Attempt)
    returns (more: seq<Event>)
    requires After(1, events) == Some(Worker(front + [a], p)) && Enabled(a, p, m) && Step(a, m) == b
    ensures After(1, more) == Some(Worker(front + [b], Effect(a, p, m)))
    ensures Undisturbed(events) && !CutsShort(m) ==> Undisturbed(more)
  {
    var i := |front|;
    assert (front + [a])[i] == a;
    AfterNext(1, events, Move(i, m));
    more := events + [Move(i, m)];
    assert (front + [a])[i := b] == front + [b];
  }

  lemma Claims(events: seq<Event>, front: seq<Attempt>, lease: RunLease, p: Pool) returns (more: seq<Event>)
    requires After(1, events) == Some(Worker(front, p)) && lease.token == p.nextToken
    ensures After(1, more) == Some(Worker(front + [Fresh(lease)], Known(p)))
    ensures Undisturbed(events) ==> Undisturbed(more)
  {
    AfterNext(1, events, Claim(lease));
    more := events + [Claim(lease)];
  }

  /** A new attempt waits for a permit, its heartbeat beating. */
  lemma Waits(events: seq<Event>, front: seq<Attempt>, lease: RunLease, p: Pool) returns (more: seq<Event>)
    requires After(1, events) == Some(Worker(front, p)) && lease.token == p.nextToken
    ensures After(1, more) == Some(Worker(front + [Awaiting(lease)], Known(p)))
    ensures Undisturbed(events) ==> Undisturbed(more)
  {
    more := Claims(events, front, lease, p);
    var q := Known(p);
    var a0 := Fresh(lease);
    var a1 := a0.(pc := Leased);
    var a2 := a1.(pc := Loading, writer := Some(Grant(lease)), heartbeat := Beating);
    more := Advance(more, front, a0, q, Start(lease, false), a1);
    more := Advance(more, front, a1, q, AcquireWriter(Some(Grant(lease))), a2);
    more := Advance(more, front, a2, q, Load, Awaiting(lease));
  }

  ghost function Awaiting(lease: RunLease): Attempt {
    Attempt(Waiting(false), lease, Some(Grant(lease)), Beating, false, 0, Idle, [])
  }

  ghost function Known(p: Pool): Pool { p.(owned := p.owned + {p.nextToken}, nextToken := p.nextToken + 1) }

  /** And takes the free one. */
  lemma TakesPermit(events: seq<Event>, front: seq<Attempt>, lease: RunLease, p: Pool) returns (more: seq<Event>)
    requires After(1, events) == Some(Worker(front, p)) && p.free > 0 && lease.token == p.nextToken
    ensures After(1, more) == Some(Worker(front + [Granted(lease)], Taken(p)))
    ensures Undisturbed(events) ==> Undisturbed(more)
  {
    more := Waits(events, front, lease, p);
    more := Advance(more, front, Awaiting(lease), Known(p), TakePermit, Granted(lease));
  }

  ghost function Granted(lease: RunLease): Attempt {
    Attempt(Waiting(true), lease, Some(Grant(lease)), Beating, false, 0, Idle, [])
  }

  ghost function Taken(p: Pool): Pool
    requires p.free > 0
  {
    p.(free := p.free - 1, owned := p.owned + {p.nextToken}, nextToken := p.nextToken + 1)
  }

  /** From the permit to a running execution. */
  lemma Executes(events: seq<Event>, front: seq<Attempt>, lease: RunLease, p: Pool) returns (more: seq<Event>)
    requires After(1, events) == Some(Worker(front + [Granted(lease)], p))
    ensures After(1, more) == Some(Worker(front + [Running(lease)], p))
    ensures Undisturbed(events) ==> Undisturbed(more)
  {
    var a := Granted(lease).(pc := Ready, slot := true);
    more := Advance(events, front, Granted(lease), p, Resume, a);
    more := Advance(more, front, a, p, BeginExecute, Running(lease));
  }

  ghost function Running(lease: RunLease): Attempt {
    Attempt(Executing, lease, Some(Grant(lease)), Beating, true, 0, Live, [])
  }

  /** A heartbeat that stops in the same wait loses the permit: nobody holds it and it is not free. */
  lemma PermitIsLost(lease: RunLease) returns (events: seq<Event>)
    requires lease.token == 0
    ensures After(1, events).Some?
    ensures var w := After(1, events).value; w.pool.free == 0 && Holders(w.attempts) == 0
  {
    events := TakesPermit([], [], lease, Initial(1).pool);
    var p, a := Taken(Initial(1).pool), Granted(lease);
    var b := a.(heartbeat := Stopped(Domain("run_lease_lost")));
    events := Advance(events, [], a, p, HeartbeatStops(Domain("run_lease_lost")), b);
    var c := Step(b, Discard);
    events := Advance(events, [], b, p, Discard, c);
    SumAppend([], Holds, c);
  }

  /** A heartbeat that ends with an unexpected error leaves the writer lease unreleased. */
  lemma WriterIsKept(lease: RunLease) returns (events: seq<Event>)
    requires lease.token == 0
    ensures After(1, events).Some? && |After(1, events).value.attempts| == 1
    ensures var a := After(1, events).value.attempts[0]; a.pc.Done? && a.writer.Some? && a.releases == 0
  {
    events := TakesPermit([], [], lease, Initial(1).pool);
    var p := Taken(Initial(1).pool);
    events := Executes(events, [], lease, p);
    events := CrashedHeartbeat(events, lease, p);
  }

  lemma CrashedHeartbeat(events: seq<Event>, lease: RunLease, p: Pool) returns (more: seq<Event>)
    requires After(1, events) == Some(Worker([] + [Running(lease)], p))
    ensures After(1, more).Some? && |After(1, more).value.attempts| == 1
    ensures var a := After(1, more).value.attempts[0]; a.pc.Done? && a.writer.Some? && a.releases == 0
  {
    var a1 := Running(lease).(heartbeat := Stopped(Crash));
    var a2 := a1.(operation := Ended);
    var a3 := a2.(pc := Reporting(Crash));
    var a4 := a3.(pc := FreeingSlot, sent := [Reported(Crash, Refused(Crash))]);
    more := Advance(events, [], Running(lease), p, HeartbeatStops(Crash), a1);
    more := Advance(more, [], a1, p, OperationEnds, a2);
    more := Advance(more, [], a2, p, Interrupt(Crash), a3);
    more := Advance(more, [], a3, p, Report(Refused(Crash)), a4);
    more := FreesAndStops(more, a4, p);
  }

  lemma FreesAndStops(events: seq<Event>, a: Attempt, p: Pool) returns (more: seq<Event>)
    requires After(1, events) == Some(Worker([] + [a], p))
    requires a.pc.FreeingSlot? && a.slot && a.writer.Some? && a.heartbeat == Stopped(Crash) && a.releases == 0
    ensures After(1, more).Some? && |After(1, more).value.attempts| == 1
    ensures var b := After(1, more).value.attempts[0]; b.pc.Done? && b.writer.Some? && b.releases == 0
  {
    var b := a.(pc := StoppingHeartbeat, slot := false);
    more := Advance(events, [], a, p, FreeSlot, b);
    var c := Step(b, StopHeartbeat(Crash));
    more := Advance(more, [], b, Effect(a, p, FreeSlot), StopHeartbeat(Crash), c);
  }

  /** An execution whose attempt is cancelled, after the attempt has given its permit back. */
  lemma LeavesExecution(lease: RunLease) returns (events: seq<Event>)
    requires lease.token == 0
    ensures After(1, events) == Some(Worker([] + [LeftBehind(lease)], Pool(1, 0, 0, {0}, 1, [])))
  {
    events := TakesPermit([], [], lease, Initial(1).pool);
    var p := Taken(Initial(1).pool);
    events := Executes(events, [], lease, p);
    var a1 := Running(lease).(pc := Cancelling(Cancelled), operation := Stray);
    var a2 := a1.(pc := FreeingSlot);
    events := Advance(events, [], Running(lease), p, Abandon(Cancelled), a1);
    events := Advance(events, [], a1, p, CancelExecutor(true), a2);
    events := Advance(events, [], a2, p, FreeSlot, LeftBehind(lease));
    assert {} + {0} == {0};
  }

  ghost function LeftBehind(lease: RunLease): Attempt {
    Attempt(StoppingHeartbeat, lease, Some(Grant(lease)), Beating, false, 0, Stray, [])
  }

  /** An attempt can end, its writer lease released, while its execution still runs. */
  lemma OperationOutlivesLease(lease: RunLease) returns (events: seq<Event>)
    requires lease.token == 0
    ensures After(1, events).Some? && |After(1, events).value.attempts| == 1
    ensures var a := After(1, events).value.attempts[0]; a.pc.Done? && a.releases == 1 && a.operation.Stray?
  {
    events := LeavesExecution(lease);
    var a1, p := LeftBehind(lease), Pool(1, 0, 0, {0}, 1, []);
    var a2 := Step(a1, StopHeartbeat(Cancelled));
    events := Advance(events, [], a1, p, StopHeartbeat(Cancelled), a2);
    events := Advance(events, [], a2, p, ReleaseWriter, Step(a2, ReleaseWriter));
  }

  /** With one permit two executions can run at once. */
  lemma OperationsExceedPermits(lease: RunLease, next: RunLease) returns (events: seq<Event>)
    requires lease.token == 0 && next.token == 1
    ensures After(1, events).Some? && LiveOperations(After(1, events).value) == 2
  {
    events := LeavesExecution(lease);
    var front, p := [] + [LeftBehind(lease)], Pool(1, 0, 0, {0}, 1, []);
    events := TakesPermit(events, front, next, p);
    events := Executes(events, front, next, Taken(p));
    SumAppend(front, InPhase, Running(next));
    SumAppend(front, Strays, Running(next));
    SumAppend([], InPhase, LeftBehind(lease));
    SumAppend([], Strays, LeftBehind(lease));
  }

  /** The same after a heartbeat task that ended cancelled, though nobody cancelled the attempt. */
  lemma CancelledHeartbeatDeserts(lease: RunLease) returns (events: seq<Event>)
    requires lease.token == 0
    ensures After(1, events).Some? && |After(1, events).value.attempts| == 1 && Undisturbed(events)
    ensures var a := After(1, events).value.attempts[0]; a.pc.Done? && a.releases == 1 && a.operation.Stray?
  {
    events := TakesPermit([], [], lease, Initial(1).pool);
    var p := Taken(Initial(1).pool);
    events := Executes(events, [], lease, p);
    var a1 := Running(lease).(heartbeat := Stopped(Cancelled));
    var a2 := a1.(pc := Cancelling(Cancelled), operation := Stray);
    var a3 := a2.(pc := FreeingSlot);
    events := Advance(events, [], Running(lease), p, HeartbeatStops(Cancelled), a1);
    events := Advance(events, [], a1, p, Desert, a2);
    events := Advance(events, [], a2, p, CancelExecutor(true), a3);
    events := Releases(events, a3, p);
  }

  lemma Releases(events: seq<Event>, a: Attempt, p: Pool) returns (more: seq<Event>)
    requires After(1, events) == Some(Worker([] + [a], p))
    requires a.pc.FreeingSlot? && a.slot && a.writer.Some? && a.heartbeat == Stopped(Cancelled) && a.releases == 0
    ensures After(1, more) == Some(Worker([] + [a.(pc := Done, slot := false, releases := 1)], Effect(a, p, FreeSlot)))
    ensures Undisturbed(events) ==> Undisturbed(more)
  {
    var b := a.(pc := StoppingHeartbeat, slot := false);
    var c := b.(pc := ReleasingWriter);
    var q := Effect(a, p, FreeSlot);
    more := Advance(events, [], a, p, FreeSlot, b);
    more := Advance(more, [], b, q, StopHeartbeat(Cancelled), c);
    more := Advance(more, [], c, q, ReleaseWriter, c.(pc := Done, releases := 1));
  }

  /** And while an attempt waits for a permit, such a heartbeat leaves an acquire task that takes the permit for nobody. */
  lemma CancelledHeartbeatOrphans(lease: RunLease) returns (events: seq<Event>)
    requires lease.token == 0
    ensures After(1, events).Some? && Undisturbed(events)
    ensures var w := After(1, events).value; w.pool.free == 0 && Holders(w.attempts) == 0
  {
    events := Waits([], [], lease, Initial(1).pool);
    var p := Known(Initial(1).pool);
    var a1 := Awaiting(lease).(heartbeat := Stopped(Cancelled));
    var a2 := a1.(pc := Cancelling(Cancelled));
    events := Advance(events, [], Awaiting(lease), p, HeartbeatStops(Cancelled), a1);
    events := Advance(events, [], a1, p, Quit, a2);
    AfterNext(1, events, OrphanTakes);
    events := events + [OrphanTakes];
    SumAppend([], Holds, a2);
  }
}
