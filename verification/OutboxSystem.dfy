/** The restart outbox as a transition system: every actor, every interleaving.
    A locked read-modify-write of one record is one step, because its only effect is one atomic
    file replacement. `prepare` takes the root lock, then reads the records one by one without
    their locks, so its scan is many steps between which any other actor may write. */
module OutboxSystem {
  import opened Prelude
  import opened OutboxRecord

  datatype AttemptPhase = Granted | SendSucceeded | SendRaised

  /** A send attempt granted to a live process whose outcome is not yet recorded. `snapshot` is
      the restart status in the record the claim returned: the message text is made from it. */
  datatype Attempt = Attempt(id: Id, number: nat, pid: Pid, lease: Time, snapshot: RestartStatus, phase: AttemptPhase)

  /** A message handed to Discord: `complete` says which text, `status` is the record's restart
      status at that moment. */
  datatype Message = Message(id: Id, complete: bool, status: RestartStatus)

  datatype Scheduled = Scheduled(id: Id, delay: nat)

  /** The holder of the root lock: which records its current scan has still to read. */
  datatype Scan = SourceScan(candidate: Record, todo: set<Id>) | ActiveScan(candidate: Record, todo: set<Id>)

  /** `granted`, `sent` and `backoffs` are histories of what happened; no step reads them. */
  datatype State = State(
    records: map<Id, Record>, root: Option<Scan>, live: set<Pid>, attempts: set<Attempt>, clock: Time,
    granted: seq<AttemptId>, sent: seq<Message>, backoffs: seq<Scheduled>)

  datatype Step =
    // prepare_reset_notification
    | BeginPrepare(id: Id, request: Request, ownership: Option<Ownership>, ambient: Option<Provenance>, env: string, now: Time)
    | ReadRecord(id: Id)        // the scan reads one record
    | SkipUnreadable(id: Id)    // the read fails and the scan goes on
    | NextScan                  // the source scan found nothing; list the directory again
    | CommitPrepare             // the active scan found nothing; write the record
    | AbortPrepare              // the process dies or the write fails
    // finalisers, reconciliation, replay
    | MarkSupervisorStarted(id: Id, pid: Pid, now: Time)
    | MarkRestarting(id: Id, supervisor: Option<Pid>, now: Time)
    | MarkSucceeded(id: Id, evidence: Option<Identity>, now: Time)
    | MarkFailed(id: Id, now: Time)
    | Reconcile(id: Id, current: Option<Identity>, supervisorLive: bool, now: Time)
    | ClaimReplay(id: Id, claimant: string)
    | FinishReplay(id: Id, outcome: ReplayStatus, ownsDelivery: bool, now: Time)
    // sweeps: `now` was read when the sweep began; what `_pid_is_live` says of a recorded process is
    // an input, for it takes one it may not signal for dead, and a stranger with its id for it
    | Claim(id: Id, pid: Pid, now: Time, fallback: string, claimerLive: bool)
    | Send(attempt: Attempt, ok: bool)
    | RecordSuccess(attempt: Attempt, now: Time)
    | RecordFailure(attempt: Attempt, now: Time, permanent: bool)
    // the environment
    | Tick(to: Time)
    | Spawn(pid: Pid)
    | Crash(pid: Pid)

  /** Does the running scan reject its candidate on reading this record? */
  predicate Stops(scan: Scan, r: Record) {
    match scan
    case SourceScan(candidate, _) => SameTransaction(r, candidate)
    case ActiveScan(_, _) => Active(r.restart.status)
  }

  predicate Enabled(s: State, step: Step) {
    match step
    case BeginPrepare(id, request, ownership, ambient, env, now) =>
      s.root.None? && id !in s.records && NewRecord(id, now, request, ownership, ambient, env).Some?
    case ReadRecord(id) => s.root.Some? && id in s.root.value.todo && id in s.records
    case SkipUnreadable(id) => s.root.Some? && id in s.root.value.todo && id in s.records
    case NextScan => s.root.Some? && s.root.value.SourceScan? && s.root.value.todo == {}
    case CommitPrepare => s.root.Some? && s.root.value.ActiveScan? && s.root.value.todo == {}
    case AbortPrepare => s.root.Some?
    case MarkSupervisorStarted(id, _, _) => id in s.records
    case MarkRestarting(id, _, _) => id in s.records
    case MarkSucceeded(id, _, _) => id in s.records
    case MarkFailed(id, _) => id in s.records
    case Reconcile(id, _, _, _) => id in s.records
    case ClaimReplay(id, _) => id in s.records
    case FinishReplay(id, outcome, _, _) => id in s.records && outcome in {ReplayComplete, ReplayPending, ReplaySkipped}
    case Claim(id, pid, now, _, _) => id in s.records && pid in s.live && now <= s.clock
    case Send(a, _) => a in s.attempts && a.phase == Granted && a.id in s.records
    case RecordSuccess(a, now) => a in s.attempts && a.phase == SendSucceeded && a.id in s.records && now <= s.clock
    case RecordFailure(a, now, _) => a in s.attempts && a.phase == SendRaised && a.id in s.records && now <= s.clock
    case Tick(to) => s.clock <= to
    case Spawn(pid) => pid > 0 && pid !in s.live
    case Crash(pid) => pid in s.live
  }

  function Put(s: State, r: Record): State {
    s.(records := s.records[r.id := r])
  }

  /** Whether a recorded process really lives. No step can see this. */
  predicate IsLive(s: State, pid: Option<Pid>) {
    pid.Some? && pid.value in s.live
  }

  function Next(s: State, step: Step): State
    requires Enabled(s, step)
  {
    match step
    case BeginPrepare(id, request, ownership, ambient, env, now) =>
      var candidate := NewRecord(id, now, request, ownership, ambient, env).value;
      s.(root := Some(if candidate.source != "" then SourceScan(candidate, s.records.Keys)
                      else ActiveScan(candidate, s.records.Keys)))
    case ReadRecord(id) =>
      if Stops(s.root.value, s.records[id]) then s.(root := None)
      else s.(root := Some(s.root.value.(todo := s.root.value.todo - {id})))
    case SkipUnreadable(id) => s.(root := Some(s.root.value.(todo := s.root.value.todo - {id})))
    case NextScan => s.(root := Some(ActiveScan(s.root.value.candidate, s.records.Keys)))
    case CommitPrepare => Put(s, s.root.value.candidate).(root := None)
    case AbortPrepare => s.(root := None)
    case MarkSupervisorStarted(id, pid, now) => Put(s, SupervisorStartedOf(s.records[id], pid, now))
    case MarkRestarting(id, supervisor, now) => Put(s, RestartingOf(s.records[id], supervisor, now))
    case MarkSucceeded(id, evidence, now) => Put(s, SucceededOf(s.records[id], evidence, now))
    case MarkFailed(id, now) => Put(s, FailedOf(s.records[id], now))
    case Reconcile(id, current, supervisorLive, now) => Put(s, ReconciledOf(s.records[id], current, supervisorLive, now))
    case ClaimReplay(id, claimant) => Put(s, ReplayClaimedOf(s.records[id], claimant).0)
    case FinishReplay(id, outcome, ownsDelivery, now) => Put(s, ReplayFinishedOf(s.records[id], outcome, ownsDelivery, now))
    case Claim(id, pid, now, fallback, claimerLive) =>
      var r := s.records[id];
      var (r', granted) := ClaimedOf(r, now, pid, fallback, claimerLive);
      if granted then
        Put(s, r').(
          attempts := s.attempts + {Attempt(id, r'.delivery.attemptCount, pid, now + CLAIM_LEASE_SECONDS, r.restart.status, Granted)},
          granted := s.granted + [AttemptId(r.id, r'.delivery.attemptCount)])
      else Put(s, r')
    case Send(a, ok) =>
      s.(attempts := s.attempts - {a} + {a.(phase := if ok then SendSucceeded else SendRaised)},
         sent := s.sent + [Message(a.id, a.snapshot == RestartSucceeded, s.records[a.id].restart.status)])
    case RecordSuccess(a, now) =>
      Put(s, DeliveredOf(s.records[a.id], now)).(attempts := s.attempts - {a})
    case RecordFailure(a, now, permanent) =>
      var r := s.records[a.id];
      var s' := Put(s, FailureOf(r, now, permanent)).(attempts := s.attempts - {a});
      if Retries(r, permanent) then s'.(backoffs := s.backoffs + [Scheduled(a.id, Backoff(CurrentAttempt(r.delivery)))]) else s'
    case Tick(to) => s.(clock := to)
    case Spawn(pid) => s.(live := s.live + {pid})
    case Crash(pid) => s.(live := s.live - {pid}, attempts := set a | a in s.attempts && a.pid != pid)
  }

  /** A schedule: the states it passes through and the steps between them. */
  datatype Schedule = Schedule(states: seq<State>, steps: seq<Step>)

  ghost predicate IsSchedule(run: Schedule) {
    && |run.states| == |run.steps| + 1
    && forall i :: 0 <= i < |run.steps| ==>
         Enabled(run.states[i], run.steps[i]) && run.states[i + 1] == Next(run.states[i], run.steps[i])
  }

  /** An outbox nobody has used yet. */
  predicate Init(s: State) {
    && (forall p :: p in s.live ==> p > 0)
    && s.records == map[] && s.root == None && s.attempts == {} && s.granted == [] && s.sent == [] && s.backoffs == []
  }
}
