/** Safety of the restart outbox over every schedule. */
module OutboxProofs {
  import opened Prelude
  import opened OutboxRecord
  import opened OutboxRecordProofs
  import opened OutboxSystem

  // ---- Invariants of every schedule ------------------------------------------

  ghost predicate RecordsOk(s: State) {
    forall id :: id in s.records ==> s.records[id].id == id && RecordInv(s.records[id])
  }

  /** An outstanding attempt was granted for a finished restart, by a process that still lives;
      if its snapshot says succeeded then the record says so still. */
  ghost predicate AttemptOk(s: State, a: Attempt) {
    && a.id in s.records && a.pid in s.live
    && !Active(s.records[a.id].restart.status) && !Active(a.snapshot)
    && (a.snapshot == RestartSucceeded ==> s.records[a.id].restart.status == RestartSucceeded)
    && 1 <= a.number <= s.records[a.id].delivery.attemptCount
  }

  function GrantCount(granted: seq<AttemptId>, id: Id): nat {
    if granted == [] then 0
    else GrantCount(granted[..|granted| - 1], id) + if granted[|granted| - 1].notification == id then 1 else 0
  }

  /** The grants of a record are numbered 1 to its attempt count, each once. */
  ghost predicate GrantsOk(s: State) {
    && (forall id :: id in s.records ==> GrantCount(s.granted, id) == s.records[id].delivery.attemptCount)
    && (forall i :: 0 <= i < |s.granted| ==>
          && s.granted[i].notification in s.records
          && 1 <= s.granted[i].number <= s.records[s.granted[i].notification].delivery.attemptCount)
    && (forall i, j :: 0 <= i < j < |s.granted| ==> s.granted[i] != s.granted[j])
  }

  /** No message went out while its restart was active, and every "complete" message is about a
      restart that is still recorded as succeeded. */
  ghost predicate MessagesOk(s: State) {
    forall i :: 0 <= i < |s.sent| ==>
      && s.sent[i].id in s.records
      && !Active(s.sent[i].status)
      && (s.sent[i].complete ==> s.records[s.sent[i].id].restart.status == RestartSucceeded)
  }

  ghost predicate CandidateOk(s: State) {
    s.root.Some? ==>
      && s.root.value.candidate.id !in s.records && RecordInv(s.root.value.candidate)
      && s.root.value.candidate.restart.status == Prepared
      && s.root.value.candidate.delivery.attemptCount == 0
      && s.root.value.todo <= s.records.Keys
      && (forall i :: 0 <= i < |s.granted| ==> s.granted[i].notification != s.root.value.candidate.id)
  }

  ghost predicate Inv(s: State) {
    && RecordsOk(s)
    && (forall a :: a in s.attempts ==> AttemptOk(s, a))
    && GrantsOk(s)
    && MessagesOk(s)
    && CandidateOk(s)
    && (forall p :: p in s.live ==> p > 0)
  }

  lemma InitInv(s: State)
    requires Init(s)
    ensures Inv(s)
  {
  }

  /** Replacing one record by a good successor with the same attempt count keeps the invariant. */
  lemma PutKeepsInv(s: State, r': Record)
    requires Inv(s) && r'.id in s.records
    requires GoodStep(s.records[r'.id], r')
    requires r'.delivery.attemptCount == s.records[r'.id].delivery.attemptCount
    ensures Inv(Put(s, r'))
  {
    hide RecordInv;
    hide GrantsOk;
    hide MessagesOk;
    hide CandidateOk;
    PutKeepsHistory(s, r');
    var s' := Put(s, r');
    forall a | a in s'.attempts ensures AttemptOk(s', a) {
      assert AttemptOk(s, a);
    }
  }

  lemma PutKeepsHistory(s: State, r': Record)
    requires GrantsOk(s) && MessagesOk(s) && CandidateOk(s) && r'.id in s.records
    requires Evolves(s.records[r'.id], r')
    requires r'.delivery.attemptCount == s.records[r'.id].delivery.attemptCount
    ensures GrantsOk(Put(s, r')) && MessagesOk(Put(s, r')) && CandidateOk(Put(s, r'))
  {
    hide RecordInv;
  }

  lemma FewerAttemptsKeepInv(s: State, attempts: set<Attempt>)
    requires Inv(s) && attempts <= s.attempts
    ensures Inv(s.(attempts := attempts))
  {
    hide RecordInv;
    var s' := s.(attempts := attempts);
    forall a | a in s'.attempts ensures AttemptOk(s', a) {
      assert AttemptOk(s, a);
    }
    assert RecordsOk(s') && GrantsOk(s') && MessagesOk(s') && CandidateOk(s');
  }

  lemma GrantCountSnoc(granted: seq<AttemptId>, g: AttemptId, id: Id)
    ensures GrantCount(granted + [g], id) == GrantCount(granted, id) + if g.notification == id then 1 else 0
  {
    assert (granted + [g])[..|granted|] == granted;
  }

  lemma {:induction false} GrantCountZero(granted: seq<AttemptId>, id: Id)
    requires forall i :: 0 <= i < |granted| ==> granted[i].notification != id
    ensures GrantCount(granted, id) == 0
  {
    if granted != [] { GrantCountZero(granted[..|granted| - 1], id); }
  }

  lemma CommitKeepsInv(s: State)
    requires Inv(s) && Enabled(s, CommitPrepare)
    ensures Inv(Next(s, CommitPrepare))
  {
    hide RecordInv;
    var s' := Next(s, CommitPrepare);
    GrantCountZero(s.granted, s.root.value.candidate.id);
    forall a | a in s'.attempts ensures AttemptOk(s', a) {
      assert AttemptOk(s, a);
    }
    assert RecordsOk(s') && GrantsOk(s') && MessagesOk(s');
  }

  /** Granting the next attempt of a finished restart keeps the invariant. */
  lemma GrantKeepsInv(s: State, r': Record, a: Attempt)
    requires Inv(s) && r'.id in s.records && a.id == r'.id && a.pid in s.live
    requires GoodStep(s.records[r'.id], r') && r'.restart == s.records[r'.id].restart
    requires !Active(r'.restart.status) && a.snapshot == r'.restart.status
    requires r'.delivery.attemptCount == s.records[r'.id].delivery.attemptCount + 1 == a.number
    ensures Inv(Put(s, r').(attempts := s.attempts + {a}, granted := s.granted + [AttemptId(a.id, a.number)]))
  {
    hide RecordInv;
    var s' := Put(s, r').(attempts := s.attempts + {a}, granted := s.granted + [AttemptId(a.id, a.number)]);
    forall b | b in s'.attempts ensures AttemptOk(s', b) {
      assert b in s.attempts ==> AttemptOk(s, b);
    }
    forall id | id in s'.records ensures GrantCount(s'.granted, id) == s'.records[id].delivery.attemptCount {
      GrantCountSnoc(s.granted, AttemptId(a.id, a.number), id);
    }
    assert RecordsOk(s') && GrantsOk(s') && MessagesOk(s') && CandidateOk(s');
  }

  lemma ClaimKeepsInv(s: State, step: Step)
    requires Inv(s) && Enabled(s, step) && step.Claim?
    ensures Inv(Next(s, step))
  {
    hide RecordInv;
    hide ClaimedOf;
    hide GoodStep;
    var r := s.records[step.id];
    var live := step.claimerLive;
    var (r', granted) := ClaimedOf(r, step.now, step.pid, step.fallback, live);
    ClaimIsGood(r, step.now, step.pid, step.fallback, live);
    assert r'.id == r.id == step.id by { GoodStepKeepsId(r, r'); }
    if granted {
      hide Inv;
      GrantKeepsInv(s, r', Attempt(step.id, r'.delivery.attemptCount, step.pid, step.now + CLAIM_LEASE_SECONDS, r.restart.status, Granted));
    } else {
      hide Inv;
      PutKeepsInv(s, r');
    }
  }

  lemma GoodStepKeepsId(r: Record, r': Record)
    requires GoodStep(r, r')
    ensures r'.id == r.id
  {
  }

  lemma SendKeepsInv(s: State, step: Step)
    requires Inv(s) && Enabled(s, step) && step.Send?
    ensures Inv(Next(s, step))
  {
    hide RecordInv;
    var s' := Next(s, step);
    assert AttemptOk(s, step.attempt);
    forall a | a in s'.attempts ensures AttemptOk(s', a) {
      assert a in s.attempts ==> AttemptOk(s, a);
    }
    assert RecordsOk(s') && GrantsOk(s') && MessagesOk(s') && CandidateOk(s');
  }

  lemma OutcomeKeepsInv(s: State, step: Step)
    requires Inv(s) && Enabled(s, step) && (step.RecordSuccess? || step.RecordFailure?)
    ensures Inv(Next(s, step))
  {
    hide RecordInv;
    hide DeliveredOf;
    hide FailureOf;
    var r := s.records[step.attempt.id];
    assert AttemptOk(s, step.attempt);
    var r' := if step.RecordSuccess? then DeliveredOf(r, step.now) else FailureOf(r, step.now, step.permanent);
    if step.RecordSuccess? { DeliveredIsGood(r, step.now); } else { FailureIsGood(r, step.now, step.permanent); }
    PutKeepsInv(s, r');
    FewerAttemptsKeepInv(Put(s, r'), s.attempts - {step.attempt});
    var s' := Put(s, r').(attempts := s.attempts - {step.attempt});
    BackoffsDoNotMatter(s', Next(s, step).backoffs);
  }

  lemma BackoffsDoNotMatter(s: State, backoffs: seq<Scheduled>)
    requires Inv(s)
    ensures Inv(s.(backoffs := backoffs))
  {
    hide RecordInv;
    var s' := s.(backoffs := backoffs);
    forall a | a in s'.attempts ensures AttemptOk(s', a) {
      assert AttemptOk(s, a);
    }
  }

  lemma EnvironmentKeepsInv(s: State, step: Step)
    requires Inv(s) && Enabled(s, step) && (step.Tick? || step.Spawn? || step.Crash?)
    ensures Inv(Next(s, step))
  {
    hide RecordInv;
    var s' := Next(s, step);
    forall a | a in s'.attempts ensures AttemptOk(s', a) {
      assert AttemptOk(s, a);
    }
    assert RecordsOk(s') && GrantsOk(s') && MessagesOk(s') && CandidateOk(s');
  }

  lemma ScanKeepsInv(s: State, step: Step)
    requires Inv(s) && Enabled(s, step)
    requires step.BeginPrepare? || step.ReadRecord? || step.SkipUnreadable? || step.NextScan? || step.AbortPrepare?
    ensures Inv(Next(s, step))
  {
    hide RecordInv;
    hide NewRecord;
    var s' := Next(s, step);
    if step.BeginPrepare? {
      NewRecordInv(step.id, step.now, step.request, step.ownership, step.ambient, step.env);
    }
    forall a | a in s'.attempts ensures AttemptOk(s', a) {
      assert AttemptOk(s, a);
    }
    assert RecordsOk(s') && GrantsOk(s') && MessagesOk(s') && CandidateOk(s');
  }

  /** The record after one of the finaliser, reconciliation or replay steps. */
  function Written(s: State, step: Step): Record
    requires Enabled(s, step) && IsFinaliser(step)
  {
    var r := s.records[step.id];
    match step
    case MarkSupervisorStarted(_, pid, now) => SupervisorStartedOf(r, pid, now)
    case MarkRestarting(_, supervisor, now) => RestartingOf(r, supervisor, now)
    case MarkSucceeded(_, evidence, now) => SucceededOf(r, evidence, now)
    case MarkFailed(_, now) => FailedOf(r, now)
    case Reconcile(_, current, supervisorLive, now) => ReconciledOf(r, current, supervisorLive, now)
    case ClaimReplay(_, claimant) => ReplayClaimedOf(r, claimant).0
    case FinishReplay(_, outcome, ownsDelivery, now) => ReplayFinishedOf(r, outcome, ownsDelivery, now)
  }

  predicate IsFinaliser(step: Step) {
    step.MarkSupervisorStarted? || step.MarkRestarting? || step.MarkSucceeded? || step.MarkFailed?
    || step.Reconcile? || step.ClaimReplay? || step.FinishReplay?
  }

  lemma WrittenIsGood(s: State, step: Step)
    requires Enabled(s, step) && IsFinaliser(step)
    ensures GoodStep(s.records[step.id], Written(s, step))
    ensures Written(s, step).delivery.attemptCount == s.records[step.id].delivery.attemptCount
    ensures Next(s, step) == Put(s, Written(s, step))
    ensures Written(s, step).delivery.status == Delivered ==> s.records[step.id].delivery.status == Delivered
  {
    hide GoodStep;
    hide Log;
    var r := s.records[step.id];
    match step
    case MarkSupervisorStarted(_, pid, now) => SupervisorStartedIsGood(r, pid, now);
    case MarkRestarting(_, supervisor, now) => RestartingIsGood(r, supervisor, now);
    case MarkSucceeded(_, evidence, now) => SucceededIsGood(r, evidence, now);
    case MarkFailed(_, now) => FailedIsGood(r, now);
    case Reconcile(_, current, supervisorLive, now) => ReconcileIsGood(r, current, supervisorLive, now);
    case ClaimReplay(_, claimant) => ReplayIsGood(r, claimant, ReplayPending, false, 0);
    case FinishReplay(_, outcome, ownsDelivery, now) => ReplayIsGood(r, "", outcome, ownsDelivery, now);
  }

  /** Every step of every actor keeps the invariant. */
  lemma StepKeepsInv(s: State, step: Step)
    requires Inv(s) && Enabled(s, step)
    ensures Inv(Next(s, step))
  {
    hide Inv;
    if IsFinaliser(step) {
      WrittenIsGood(s, step);
      FinaliserKeepsInv(s, step);
    } else if step.CommitPrepare? {
      CommitKeepsInv(s);
    } else if step.Claim? {
      ClaimKeepsInv(s, step);
    } else if step.Send? {
      SendKeepsInv(s, step);
    } else if step.RecordSuccess? || step.RecordFailure? {
      OutcomeKeepsInv(s, step);
    } else if step.Tick? || step.Spawn? || step.Crash? {
      EnvironmentKeepsInv(s, step);
    } else {
      ScanKeepsInv(s, step);
    }
  }

  lemma FinaliserKeepsInv(s: State, step: Step)
    requires Inv(s) && Enabled(s, step) && IsFinaliser(step)
    ensures Inv(Next(s, step))
  {
    hide RecordInv;
    hide Written;
    hide Next;
    WrittenIsGood(s, step);
    PutKeepsInv(s, Written(s, step));
  }

  lemma {:induction false} ScheduleInv(run: Schedule, i: nat)
    requires IsSchedule(run) && Inv(run.states[0]) && i < |run.states|
    ensures Inv(run.states[i])
  {
    hide Inv;
    hide Next;
    if i > 0 {
      ScheduleInv(run, i - 1);
      StepKeepsInv(run.states[i - 1], run.steps[i - 1]);
    }
  }

  // ---- What a schedule can never undo ------------------------------------------

  /** Every step moves every record forward: none disappears, changes identity or request, or
      loses restart rank. */
  lemma StepEvolves(s: State, step: Step, id: Id)
    requires Inv(s) && Enabled(s, step) && id in s.records
    ensures id in Next(s, step).records
    ensures Evolves(s.records[id], Next(s, step).records[id])
    ensures s.sent <= Next(s, step).sent && s.granted <= Next(s, step).granted
  {
    hide RecordInv;
    hide ClaimedOf;
    hide DeliveredOf;
    hide FailureOf;
    if IsFinaliser(step) {
      hide Written;
      WrittenIsGood(s, step);
    } else if step.Claim? {
      var r := s.records[step.id];
      ClaimIsGood(r, step.now, step.pid, step.fallback, step.claimerLive);
    } else if step.RecordSuccess? {
      assert AttemptOk(s, step.attempt);
      DeliveredIsGood(s.records[step.attempt.id], step.now);
    } else if step.RecordFailure? {
      assert AttemptOk(s, step.attempt);
      FailureIsGood(s.records[step.attempt.id], step.now, step.permanent);
    }
  }

  /** Restart status only climbs prepared < supervisor_started < restarting < failed < succeeded,
      over any stretch of any schedule; and no record ever leaves the outbox. */
  lemma {:induction false} StatusClimbs(run: Schedule, i: nat, j: nat, id: Id)
    requires IsSchedule(run) && Inv(run.states[0]) && i <= j < |run.states|
    requires id in run.states[i].records
    ensures id in run.states[j].records
    ensures Rank(run.states[i].records[id].restart.status) <= Rank(run.states[j].records[id].restart.status)
    ensures run.states[i].records[id].restart.request == run.states[j].records[id].restart.request
    ensures run.states[i].sent <= run.states[j].sent
  {
    hide Inv;
    hide Next;
    if i < j {
      StatusClimbs(run, i, j - 1, id);
      ScheduleInv(run, j - 1);
      StepEvolves(run.states[j - 1], run.steps[j - 1], id);
    }
  }

  /** At most eight send attempts in the life of a record, under any schedule of crashes, lapsed
      leases and concurrent sweepers, and no attempt id is ever granted twice. */
  lemma RetryBudget(run: Schedule, i: nat, id: Id)
    requires IsSchedule(run) && Init(run.states[0]) && i < |run.states|
    ensures GrantCount(run.states[i].granted, id) <= MAX_ATTEMPTS
    ensures var g := run.states[i].granted; forall m, n :: 0 <= m < n < |g| ==> g[m] != g[n]
  {
    InitInv(run.states[0]);
    ScheduleInv(run, i);
    if id !in run.states[i].records {
      GrantCountZero(run.states[i].granted, id);
    }
  }

  /** No false success. Message `m` of any state was sent for a restart that was over; if its text
      says "complete", the record says succeeded then and in every later state. */
  lemma NoFalseSuccess(run: Schedule, i: nat, j: nat, m: nat)
    requires IsSchedule(run) && Init(run.states[0]) && i <= j < |run.states| && m < |run.states[i].sent|
    ensures !Active(run.states[i].sent[m].status)
    ensures run.states[i].sent[m].complete ==>
              && run.states[i].sent[m].id in run.states[j].records
              && run.states[j].records[run.states[i].sent[m].id].restart.status == RestartSucceeded
  {
    InitInv(run.states[0]);
    ScheduleInv(run, i);
    StatusClimbs(run, i, j, run.states[i].sent[m].id);
  }

  /** In every reachable state both histories of every record hold between one and twenty entries
      and end with the current status. */
  lemma HistoriesAreBounded(run: Schedule, i: nat, id: Id)
    requires IsSchedule(run) && Init(run.states[0]) && i < |run.states| && id in run.states[i].records
    ensures var r := run.states[i].records[id];
            && 1 <= |r.restart.history| <= 20 && r.restart.history[|r.restart.history| - 1].status == r.restart.status
            && 1 <= |r.delivery.history| <= 20 && r.delivery.history[|r.delivery.history| - 1].status == r.delivery.status
  {
    InitInv(run.states[0]);
    ScheduleInv(run, i);
  }

  // ---- One active restart, one record per source and revision --------------------

  predicate IsActive(s: State, id: Id) {
    id in s.records && Active(s.records[id].restart.status)
  }

  ghost predicate OneActive(s: State) {
    forall a, b :: IsActive(s, a) && IsActive(s, b) ==> a == b
  }

  /** Same non-empty source, same runtime revision, same runtime source. */
  predicate SameKey(a: Record, b: Record) {
    && a.source != "" && a.source == b.source
    && a.restart.request.revision == b.restart.request.revision
    && a.restart.request.runtimeSource == b.restart.request.runtimeSource
  }

  ghost predicate UniqueKeys(s: State) {
    forall a, b :: a in s.records && b in s.records && SameKey(s.records[a], s.records[b]) ==> a == b
  }

  /** What the scan in progress has established and no other actor can undo. */
  ghost predicate ScanOk(s: State) {
    match s.root
    case None => true
    case Some(SourceScan(c, todo)) =>
      forall id :: id in s.records && id !in todo ==> !SameTransaction(s.records[id], c)
    case Some(ActiveScan(c, todo)) =>
      && (c.source != "" ==> forall id :: id in s.records ==> !SameTransaction(s.records[id], c))
      && (forall id :: id in s.records && id !in todo ==> !IsActive(s, id))
  }

  ghost predicate Exclusive(s: State) {
    OneActive(s) && UniqueKeys(s) && ScanOk(s)
  }

  /** The scan failed to read a record that would have stopped it. */
  predicate BlindSkip(s: State, step: Step) {
    step.SkipUnreadable? && Enabled(s, step) && Stops(s.root.value, s.records[step.id])
  }

  lemma EvolvingKeepsExclusive(s: State, s': State)
    requires Exclusive(s) && s'.root == s.root && s'.records.Keys == s.records.Keys
    requires forall id :: id in s.records ==> Evolves(s.records[id], s'.records[id])
    ensures Exclusive(s')
  {
    assert forall id :: IsActive(s', id) ==> IsActive(s, id);
    match s.root
    case None =>
    case Some(SourceScan(c, todo)) =>
      assert forall id :: id in s.records ==> SameTransaction(s.records[id], c) == SameTransaction(s'.records[id], c);
    case Some(ActiveScan(c, todo)) =>
      assert forall id :: id in s.records ==> SameTransaction(s.records[id], c) == SameTransaction(s'.records[id], c);
  }

  lemma CommitKeepsExclusive(s: State)
    requires Inv(s) && Exclusive(s) && Enabled(s, CommitPrepare)
    ensures Exclusive(Next(s, CommitPrepare))
  {
    hide RecordInv;
    var c := s.root.value.candidate;
    assert forall id :: id in s.records && SameKey(s.records[id], c) ==> SameTransaction(s.records[id], c);
    assert forall id :: id in s.records ==> !SameKey(s.records[id], c) && !SameKey(c, s.records[id]);
  }

  lemma ScanKeepsExclusive(s: State, step: Step)
    requires Inv(s) && Exclusive(s) && Enabled(s, step) && !BlindSkip(s, step)
    requires step.BeginPrepare? || step.ReadRecord? || step.SkipUnreadable? || step.NextScan? || step.AbortPrepare?
    ensures Exclusive(Next(s, step))
  {
    hide RecordInv;
    hide NewRecord;
    var s' := Next(s, step);
    assert s'.records == s.records;
    assert forall id :: IsActive(s', id) == IsActive(s, id);
  }

  lemma StepKeepsExclusive(s: State, step: Step)
    requires Inv(s) && Exclusive(s) && Enabled(s, step) && !BlindSkip(s, step)
    ensures Exclusive(Next(s, step))
  {
    hide RecordInv;
    hide Next;
    hide BlindSkip;
    if step.CommitPrepare? {
      CommitKeepsExclusive(s);
    } else if step.BeginPrepare? || step.ReadRecord? || step.SkipUnreadable? || step.NextScan? || step.AbortPrepare? {
      ScanKeepsExclusive(s, step);
    } else {
      forall id | id in s.records ensures id in Next(s, step).records && Evolves(s.records[id], Next(s, step).records[id]) {
        StepEvolves(s, step, id);
      }
      KeysKept(s, step);
      EvolvingKeepsExclusive(s, Next(s, step));
    }
  }

  lemma KeysKept(s: State, step: Step)
    requires Inv(s) && Enabled(s, step)
    requires !(step.BeginPrepare? || step.ReadRecord? || step.SkipUnreadable? || step.NextScan? || step.AbortPrepare? || step.CommitPrepare?)
    ensures Next(s, step).root == s.root && Next(s, step).records.Keys == s.records.Keys
  {
    hide RecordInv;
    hide ClaimedOf;
    if IsFinaliser(step) {
      hide Written;
      WrittenIsGood(s, step);
    } else if step.Claim? {
      var r := s.records[step.id];
      ClaimIsGood(r, step.now, step.pid, step.fallback, step.claimerLive);
    }
  }

  /** In every reachable state at most one restart is active and there is at most one record per
      non-empty source, runtime revision and runtime source, although the scan of `prepare` reads
      the records one at a time while others write them; provided no scan fails to read a record
      that would have stopped it. */
  lemma {:induction false} AtMostOneActive(run: Schedule, i: nat)
    requires IsSchedule(run) && Init(run.states[0]) && i < |run.states|
    requires forall j :: 0 <= j < i ==> !BlindSkip(run.states[j], run.steps[j])
    ensures OneActive(run.states[i]) && UniqueKeys(run.states[i]) && ScanOk(run.states[i])
  {
    hide Next;
    if i > 0 {
      AtMostOneActive(run, i - 1);
      InitInv(run.states[0]);
      ScheduleInv(run, i - 1);
      StepKeepsExclusive(run.states[i - 1], run.steps[i - 1]);
    }
  }

  /** The scan is what exclusivity rests on: committing keeps one active restart at most if and
      only if no record is active at that moment. */
  lemma CommitNeedsTheScan(s: State)
    requires Inv(s) && Enabled(s, CommitPrepare)
    ensures OneActive(Next(s, CommitPrepare)) <==> forall id :: id in s.records ==> !IsActive(s, id)
  {
    hide RecordInv;
    var s', c := Next(s, CommitPrepare), s.root.value.candidate.id;
    assert IsActive(s', c);
    assert forall id :: id in s.records ==> IsActive(s', id) == IsActive(s, id);
  }

  /** So the proviso of `AtMostOneActive` is needed: skipping an unreadable active record, the last
      one the scan had to read, and committing leaves two active restarts. */
  lemma BlindSkipBreaksExclusivity(s: State, id: Id)
    requires Inv(s) && IsActive(s, id)
    requires s.root.Some? && s.root.value.ActiveScan? && s.root.value.todo == {id}
    ensures BlindSkip(s, SkipUnreadable(id))
    ensures Enabled(Next(s, SkipUnreadable(id)), CommitPrepare)
    ensures !OneActive(Next(Next(s, SkipUnreadable(id)), CommitPrepare))
  {
    hide RecordInv;
    var s1 := Next(s, SkipUnreadable(id));
    ScanKeepsInv(s, SkipUnreadable(id));
    assert IsActive(s1, id);
    CommitNeedsTheScan(s1);
  }

  /** The other half likewise: committing keeps one record per key if and only if no record has the
      candidate's. */
  lemma CommitNeedsTheSourceScan(s: State)
    requires Inv(s) && UniqueKeys(s) && Enabled(s, CommitPrepare)
    ensures UniqueKeys(Next(s, CommitPrepare))
            <==> forall id :: id in s.records ==> !SameKey(s.records[id], s.root.value.candidate)
  {
    hide RecordInv;
    var s', c := Next(s, CommitPrepare), s.root.value.candidate;
    assert s'.records[c.id] == c && c.id !in s.records;
    assert forall id :: id in s.records ==> s'.records[id] == s.records[id];
    if id :| id in s.records && SameKey(s.records[id], c) {
      assert SameKey(s'.records[id], s'.records[c.id]) && id != c.id;
    }
  }

  /** And a source scan that cannot read the record of its own source breaks it: the four steps end with two
      records of one key, of which only the new one is active. */
  lemma BlindSkipBreaksUniqueness(s: State, id: Id)
    requires Inv(s) && s.records.Keys == {id} && !IsActive(s, id)
    requires s.root.Some? && s.root.value.SourceScan? && s.root.value.todo == {id} && SameKey(s.records[id], s.root.value.candidate)
    ensures BlindSkip(s, SkipUnreadable(id))
    ensures var s1 := Next(s, SkipUnreadable(id));
            && Enabled(s1, NextScan)
            && var s2 := Next(s1, NextScan);
            && Enabled(s2, ReadRecord(id))
            && var s3 := Next(s2, ReadRecord(id));
            && Enabled(s3, CommitPrepare)
            && OneActive(Next(s3, CommitPrepare)) && !UniqueKeys(Next(s3, CommitPrepare))
  {
    hide RecordInv;
    var c := s.root.value.candidate;
    var s3 := s.(root := Some(ActiveScan(c, {})));
    var s2 := s.(root := Some(ActiveScan(c, {id})));
    assert s2.root.value.todo - {id} == {};
    assert Next(s2, ReadRecord(id)) == s3;
    AbortedScansKeepInv(s, s3);
    CommitNeedsTheScan(s3);
    CommitNeedsTheSourceScan(s3);
  }

  lemma AbortedScansKeepInv(s: State, s': State)
    requires Inv(s) && s.root.Some? && s'.root.Some? && s'.root.value.candidate == s.root.value.candidate && s'.root.value.todo == {}
    requires s' == s.(root := s'.root)
    ensures Inv(s')
  {
    hide RecordInv;
    forall a | a in s'.attempts ensures AttemptOk(s', a) {
      assert AttemptOk(s, a);
    }
    assert RecordsOk(s') && GrantsOk(s') && MessagesOk(s');
  }
}
