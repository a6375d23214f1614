/** What a caller of the outbox can rely on over every schedule: a retry waits out its pause, and a
    restart succeeds only against the process named in its own request. */
module OutboxPromises {
  import opened Prelude
  import opened OutboxRecord
  import opened OutboxRecordProofs
  import opened OutboxFields
  import opened OutboxSystem
  import opened OutboxProofs
  import opened OutboxFinality
  import opened Services
  import opened OutboxEvidence

  // ---- Retries ---------------------------------------------------------------------

  /** The record waits for its retry until `due`. */
  predicate Waits(s: State, id: Id, due: Time) {
    id in s.records && s.records[id].delivery.status == RetryPending && s.records[id].delivery.nextAttempt == Some(due)
  }

  predicate IsPending(s: State, id: Id) {
    id in s.records && s.records[id].delivery.status == RetryPending
  }

  predicate RecordsFailure(step: Step, id: Id) {
    step.RecordFailure? && step.attempt.id == id
  }

  predicate Grants(s: State, step: Step, id: Id) {
    step.Claim? && step.id == id && id in s.records
    && ClaimedOf(s.records[id], step.now, step.pid, step.fallback, step.claimerLive).1
  }

  /** Finalisers leave a delivery as it is or give it another status. */
  lemma FinalisersKeepRetry(s: State, step: Step)
    requires Enabled(s, step) && IsFinaliser(step) && Written(s, step).delivery.status == RetryPending
    ensures Written(s, step).delivery == s.records[step.id].delivery
  {
    hide Log;
  }

  lemma ClaimsKeepRetry(r: Record, now: Time, pid: Pid, fallback: string, live: bool)
    requires ClaimedOf(r, now, pid, fallback, live).0.delivery.status == RetryPending
    ensures ClaimedOf(r, now, pid, fallback, live).0 == r
  {
    hide ClaimedOf;
    hide Log;
    hide Reachable;
    ClaimMeans(r, now, pid, fallback, live);
  }

  lemma FinaliserKeepsDue(s: State, step: Step, id: Id, due: Time)
    requires Inv(s) && Enabled(s, step) && IsFinaliser(step) && Waits(s, id, due)
    ensures IsPending(Next(s, step), id) ==> Waits(Next(s, step), id, due)
  {
    hide Inv;
    hide Next;
    hide Written;
    InvIds(s);
    WrittenIsGood(s, step);
    if step.id == id && Written(s, step).delivery.status == RetryPending { FinalisersKeepRetry(s, step); }
  }

  lemma DeliveryKeepsDue(s: State, step: Step, id: Id, due: Time)
    requires Inv(s) && Enabled(s, step) && (step.Claim? || step.RecordSuccess? || step.RecordFailure?)
    requires Waits(s, id, due) && !RecordsFailure(step, id)
    ensures IsPending(Next(s, step), id) ==> Waits(Next(s, step), id, due)
  {
    hide Inv;
    hide ClaimedOf;
    hide DeliveredOf;
    hide FailureOf;
    hide DeliveryMoved;
    InvIds(s);
    if step.Claim? {
      ClaimIsGood(s.records[step.id], step.now, step.pid, step.fallback, step.claimerLive);
      if step.id == id && ClaimedOf(s.records[id], step.now, step.pid, step.fallback, step.claimerLive).0.delivery.status == RetryPending {
        ClaimsKeepRetry(s.records[id], step.now, step.pid, step.fallback, step.claimerLive);
      }
    } else if step.RecordSuccess? {
      OutcomeIds(s.records[step.attempt.id], step.now, false);
    } else {
      OutcomeIds(s.records[step.attempt.id], step.now, step.permanent);
    }
  }

  lemma OutcomeIds(r: Record, now: Time, permanent: bool)
    ensures DeliveredOf(r, now).id == r.id == FailureOf(r, now, permanent).id
    ensures DeliveredOf(r, now).delivery.status == Delivered
  {
    hide Log;
    hide Backoff;
  }

  /** Only another recorded failure changes when a waiting record is due. */
  lemma DueTimeIsKept(s: State, step: Step, id: Id, due: Time)
    requires Inv(s) && Enabled(s, step) && Waits(s, id, due) && !RecordsFailure(step, id)
    ensures IsPending(Next(s, step), id) ==> Waits(Next(s, step), id, due)
  {
    if IsFinaliser(step) {
      FinaliserKeepsDue(s, step, id, due);
    } else if step.Claim? || step.RecordSuccess? || step.RecordFailure? {
      DeliveryKeepsDue(s, step, id, due);
    } else {
      hide Inv;
      hide NewRecord;
      InvIds(s);
    }
  }

  /** The failure of attempt `n` makes the record wait out the pause for `n`. */
  lemma FailureMakesWait(s: State, step: Step, id: Id)
    requires Inv(s) && Enabled(s, step) && RecordsFailure(step, id) && IsPending(Next(s, step), id)
    ensures id in s.records && 1 <= s.records[id].delivery.attemptCount <= 7
    ensures Waits(Next(s, step), id, step.now + Pause(s.records[id].delivery.attemptCount))
  {
    hide RecordInv;
    hide FailureOf;
    assert AttemptOk(s, step.attempt);
    hide Inv;
    OutcomesMean(s.records[id], step.now, step.permanent);
  }

  lemma {:induction false} WaitsUntil(run: Schedule, i: nat, j: nat, id: Id)
    requires IsSchedule(run) && Init(run.states[0]) && i < j < |run.states| && RecordsFailure(run.steps[i], id)
    requires forall m :: i < m <= j ==> IsPending(run.states[m], id)
    requires forall m :: i < m < j ==> !RecordsFailure(run.steps[m], id)
    ensures id in run.states[i].records && 1 <= run.states[i].records[id].delivery.attemptCount <= 7
    ensures Waits(run.states[j], id, run.steps[i].now + Pause(run.states[i].records[id].delivery.attemptCount))
  {
    hide Inv;
    hide Next;
    InitInv(run.states[0]);
    ScheduleInv(run, i);
    assert IsPending(run.states[i + 1], id);
    FailureMakesWait(run.states[i], run.steps[i], id);
    if i + 1 < j {
      WaitsUntil(run, i, j - 1, id);
      ScheduleInv(run, j - 1);
      DueTimeIsKept(run.states[j - 1], run.steps[j - 1], id,
                    run.steps[i].now + Pause(run.states[i].records[id].delivery.attemptCount));
    }
  }

  /** No retry is early: in any schedule, a claim granted while a record still waits for its retry reads a
      clock at least the pause after the failure that made it wait. */
  lemma RetriesWaitTheirPause(run: Schedule, i: nat, j: nat, id: Id)
    requires IsSchedule(run) && Init(run.states[0]) && i < j < |run.steps| && RecordsFailure(run.steps[i], id)
    requires forall m :: i < m <= j ==> IsPending(run.states[m], id)
    requires forall m :: i < m < j ==> !RecordsFailure(run.steps[m], id)
    requires Grants(run.states[j], run.steps[j], id)
    ensures id in run.states[i].records && 1 <= run.states[i].records[id].delivery.attemptCount <= 7
    ensures run.steps[j].now >= run.steps[i].now + Pause(run.states[i].records[id].delivery.attemptCount)
  {
    hide Inv;
    hide Next;
    hide ClaimedOf;
    hide Pause;
    WaitsUntil(run, i, j, id);
    var step := run.steps[j];
    GrantedExactlyWhen(run.states[j].records[id], step.now, step.pid, step.fallback, step.claimerLive);
  }

  // ---- Messages ------------------------------------------------------------------------

  /** A granted claim adds one attempt, with the number, lease and restart status it was granted under. */
  lemma GrantMeans(s: State, step: Step, id: Id)
    requires Inv(s) && Enabled(s, step) && Grants(s, step, id)
    ensures var a := Attempt(id, s.records[id].delivery.attemptCount + 1, step.pid, step.now + 60, s.records[id].restart.status, Granted);
            && Next(s, step).attempts == s.attempts + {a}
            && Next(s, step).granted == s.granted + [AttemptId(id, a.number)]
            && Next(s, step).sent == s.sent
  {
    hide Inv;
    InvIds(s);
    var r := s.records[id];
    GrantedExactlyWhen(r, step.now, step.pid, step.fallback, step.claimerLive);
    ClaimMeans(r, step.now, step.pid, step.fallback, step.claimerLive);
    hide ClaimedOf;
    hide Reachable;
    hide HasReplyTarget;
  }

  /** A send attempt is there with the restart status that was read when it was granted. */
  predicate Carries(s: State, id: Id, number: nat, status: RestartStatus) {
    forall a :: a in s.attempts && a.id == id && a.number == number ==> a.snapshot == status
  }

  lemma GrantsToOthersCarry(s: State, step: Step, id: Id, number: nat, status: RestartStatus)
    requires Inv(s) && Enabled(s, step) && Carries(s, id, number, status) && step.Claim? && Grants(s, step, step.id)
    requires !(step.id == id && s.records[id].delivery.attemptCount + 1 == number)
    ensures Carries(Next(s, step), id, number, status)
  {
    GrantMeans(s, step, step.id);
    hide Inv;
    hide Next;
    hide ClaimedOf;
  }

  lemma StepCarries(s: State, step: Step, id: Id, number: nat, status: RestartStatus)
    requires Inv(s) && Enabled(s, step) && Carries(s, id, number, status)
    requires !(Grants(s, step, id) && s.records[id].delivery.attemptCount + 1 == number)
    ensures Carries(Next(s, step), id, number, status)
  {
    if step.Claim? && Grants(s, step, step.id) {
      GrantsToOthersCarry(s, step, id, number, status);
    } else {
      hide Inv;
      hide NewRecord;
      hide ClaimedOf;
      hide DeliveredOf;
      hide FailureOf;
    }
  }

  lemma GrantCarries(s: State, step: Step, id: Id)
    requires Inv(s) && Enabled(s, step) && Grants(s, step, id)
    ensures var n := s.records[id].delivery.attemptCount + 1;
            && Carries(Next(s, step), id, n, s.records[id].restart.status)
            && id in Next(s, step).records && Next(s, step).records[id].delivery.attemptCount == n
  {
    GrantMeans(s, step, id);
    var r := s.records[id];
    GrantedExactlyWhen(r, step.now, step.pid, step.fallback, step.claimerLive);
    ClaimMeans(r, step.now, step.pid, step.fallback, step.claimerLive);
    forall a | a in s.attempts && a.id == id ensures a.number <= r.delivery.attemptCount {
      assert AttemptOk(s, a);
    }
    hide Inv;
    hide ClaimedOf;
    hide Reachable;
    hide HasReplyTarget;
  }

  /** What holds of the record and its attempts once attempt `number` was granted. */
  predicate Carrying(s: State, id: Id, number: nat, status: RestartStatus) {
    Carries(s, id, number, status) && id in s.records && s.records[id].delivery.attemptCount >= number
  }

  lemma StepCarrying(s: State, step: Step, id: Id, number: nat, status: RestartStatus)
    requires Inv(s) && Enabled(s, step) && Carrying(s, id, number, status)
    ensures Carrying(Next(s, step), id, number, status)
  {
    hide Inv;
    hide Next;
    hide Carries;
    hide ClaimedOf;
    StepEvolves(s, step, id);
    StepCarries(s, step, id, number, status);
  }

  lemma {:induction false} CarriedUntil(run: Schedule, i: nat, j: nat, id: Id)
    requires IsSchedule(run) && Init(run.states[0]) && i < j < |run.states| && Grants(run.states[i], run.steps[i], id)
    ensures Carrying(run.states[j], id, run.states[i].records[id].delivery.attemptCount + 1, run.states[i].records[id].restart.status)
  {
    hide Inv;
    hide Next;
    hide Carries;
    InitInv(run.states[0]);
    if j == i + 1 {
      ScheduleInv(run, i);
      GrantCarries(run.states[i], run.steps[i], id);
    } else {
      hide Grants;
      hide Carrying;
      CarriedUntil(run, i, j - 1, id);
      ScheduleInv(run, j - 1);
      StepCarrying(run.states[j - 1], run.steps[j - 1], id, run.states[i].records[id].delivery.attemptCount + 1,
                   run.states[i].records[id].restart.status);
    }
  }

  lemma SendMeans(s: State, step: Step)
    requires Enabled(s, step) && step.Send?
    ensures step.attempt in s.attempts && step.attempt.id in s.records
    ensures Next(s, step).sent ==
      s.sent + [Message(step.attempt.id, step.attempt.snapshot.RestartSucceeded?, s.records[step.attempt.id].restart.status)]
  {
  }

  /** The message of an attempt says that the restart is complete exactly if the record said so when the
      attempt was granted. */
  lemma MessageSaysWhatWasRead(run: Schedule, i: nat, j: nat, id: Id)
    requires IsSchedule(run) && Init(run.states[0]) && i < j < |run.steps| && Grants(run.states[i], run.steps[i], id)
    requires run.steps[j].Send? && run.steps[j].attempt.id == id
    requires run.steps[j].attempt.number == run.states[i].records[id].delivery.attemptCount + 1
    ensures exists m :: && run.states[j + 1].sent == run.states[j].sent + [m] && m.id == id
                        && (m.complete <==> run.states[i].records[id].restart.status.RestartSucceeded?)
  {
    CarriedUntil(run, i, j, id);
    var s, step := run.states[j], run.steps[j];
    assert Enabled(s, step) && run.states[j + 1] == Next(s, step);
    SendMeans(s, step);
    hide Enabled;
    hide Next;
    var m := Message(id, step.attempt.snapshot.RestartSucceeded?, s.records[id].restart.status);
    assert run.states[j + 1].sent == s.sent + [m];
  }

  // ---- Requests ------------------------------------------------------------------------

  /** The step begins to prepare the record `id`. */
  predicate Begins(step: Step, id: Id) {
    step.BeginPrepare? && step.id == id
  }

  /** Whatever the outbox holds or is about to hold under `id` was made from this request. */
  predicate Remembers(s: State, id: Id, request: Request) {
    && (s.root.Some? && s.root.value.candidate.id == id ==> s.root.value.candidate.restart.request == request)
    && (id in s.records ==> s.records[id].restart.request == request)
  }

  lemma BeginningRemembers(s: State, step: Step, id: Id)
    requires Enabled(s, step) && Begins(step, id)
    ensures Remembers(Next(s, step), id, step.request)
  {
    hide NewRecord;
    if step.ownership != Some(InterruptedTurnCompletion) {
      NewRecordMeans(id, step.now, step.request, step.ownership, step.ambient, step.env);
    } else {
      NewRecordInv(id, step.now, step.request, step.ownership, step.ambient, step.env);
    }
  }

  /** What one step of a preparation does: it scans for the same message only if there is one, and always for an
      active restart; every scan starts with all records; it stops on exactly the record it looks for. */
  lemma PreparationMeans(s: State, step: Step)
    requires Enabled(s, step)
    ensures step.BeginPrepare? ==>
              && Next(s, step).root.Some? && Next(s, step).root.value.todo == s.records.Keys
              && (Next(s, step).root.value.SourceScan? <==>
                    step.ambient.Some? && step.ownership != Some(EphemeralInteraction) && step.ambient.value.source != "")
    ensures step.NextScan? ==>
              Next(s, step).root.Some? && Next(s, step).root.value.ActiveScan? && Next(s, step).root.value.todo == s.records.Keys
    ensures step.ReadRecord? ==>
              var scan, r, candidate := s.root.value, s.records[step.id], s.root.value.candidate;
              var seen, asked := r.restart.request, candidate.restart.request;
              var found := if scan.SourceScan?
                           then r.source == candidate.source
                                && (asked.revision == "" || (seen.revision, seen.runtimeSource) == (asked.revision, asked.runtimeSource))
                           else r.restart.status.Prepared? || r.restart.status.SupervisorStarted? || r.restart.status.Restarting?;
              && (Next(s, step).root.None? <==> found)
              && (!found ==> Next(s, step).root == Some(scan.(todo := scan.todo - {step.id})))
    ensures step.CommitPrepare? ==>
              Next(s, step).records == s.records[s.root.value.candidate.id := s.root.value.candidate] && Next(s, step).root.None?
    ensures step.BeginPrepare? || step.ReadRecord? || step.SkipUnreadable? || step.NextScan? || step.AbortPrepare? ==>
              Next(s, step).records == s.records
  {
    if step.BeginPrepare? && step.ownership == Some(InterruptedTurnCompletion) {
      NewRecordInv(step.id, step.now, step.request, step.ownership, step.ambient, step.env);
    }
    hide ClaimedOf;
    hide DeliveredOf;
    hide FailureOf;
  }

  /** A candidate stays the same from the step that begins it on. */
  lemma CandidateIsKept(s: State, step: Step)
    requires Enabled(s, step) && Next(s, step).root.Some? && !step.BeginPrepare?
    ensures s.root.Some? && s.root.value.candidate == Next(s, step).root.value.candidate
  {
    hide NewRecord;
    hide ClaimedOf;
    hide DeliveredOf;
    hide FailureOf;
    if IsFinaliser(step) {
      WrittenIsGood(s, step);
      hide Next;
    }
  }

  /** A record that is new is the candidate. */
  lemma OnlyCandidatesAppear(s: State, step: Step, id: Id)
    requires Inv(s) && Enabled(s, step) && id !in s.records && id in Next(s, step).records
    ensures s.root.Some? && s.root.value.candidate.id == id && Next(s, step).records[id] == s.root.value.candidate
  {
    hide NewRecord;
    hide RecordInv;
    hide ClaimedOf;
    hide DeliveredOf;
    hide FailureOf;
    if !(step.BeginPrepare? || step.ReadRecord? || step.SkipUnreadable? || step.NextScan? || step.AbortPrepare? || step.CommitPrepare?) {
      hide Next;
      KeysKept(s, step);
    }
  }

  lemma StepRemembers(s: State, step: Step, id: Id, request: Request)
    requires Inv(s) && Enabled(s, step) && !Begins(step, id) && Remembers(s, id, request)
    ensures Remembers(Next(s, step), id, request)
  {
    if id in s.records {
      StepEvolves(s, step, id);
    } else if id in Next(s, step).records {
      OnlyCandidatesAppear(s, step, id);
    }
    if step.BeginPrepare? {
      BeginningRemembers(s, step, step.id);
      NewRecordInv(step.id, step.now, step.request, step.ownership, step.ambient, step.env);
      hide NewRecord;
      hide Inv;
    } else if Next(s, step).root.Some? {
      hide Inv;
      CandidateIsKept(s, step);
      hide Next;
    }
  }

  /** A record keeps the request it was asked with: nobody else begins one under its id. */
  lemma {:induction false} RequestIsKept(run: Schedule, i: nat, j: nat, id: Id)
    requires IsSchedule(run) && Init(run.states[0]) && i < j < |run.states| && Begins(run.steps[i], id)
    requires forall m :: i < m < j ==> !Begins(run.steps[m], id)
    ensures Remembers(run.states[j], id, run.steps[i].request)
  {
    hide Inv;
    hide Next;
    hide Remembers;
    if j == i + 1 {
      BeginningRemembers(run.states[i], run.steps[i], id);
    } else {
      RequestIsKept(run, i, j - 1, id);
      InitInv(run.states[0]);
      ScheduleInv(run, j - 1);
      StepRemembers(run.states[j - 1], run.steps[j - 1], id, run.steps[i].request);
    }
  }

  /** The promise of `restart_service` from its own request on: the record made for it is marked succeeded by a
      supervisor only on seeing another process, on the same backend, than the one the request names. */
  lemma RestartReplacesTheNamedProcess(run: Schedule, i: nat, j: nat, id: Id)
    requires IsSchedule(run) && Init(run.states[0]) && i < j < |run.steps| && Begins(run.steps[i], id)
    requires forall m :: i < m < j ==> !Begins(run.steps[m], id)
    requires FromRestartService(run.steps[i].request)
    requires run.steps[j].MarkSucceeded? && run.steps[j].id == id && Supervised(run.states[j], run.steps[j])
    ensures run.steps[j].evidence.Some? && AnotherProcess(run.steps[i].request, run.steps[j].evidence.value)
  {
    hide Inv;
    hide Next;
    hide FromRestartService;
    hide Supervise;
    hide Bound;
    hide AnotherProcess;
    RequestIsKept(run, i, j, id);
    var s, step, request := run.states[j], run.steps[j], run.steps[i].request;
    RestartServiceBinds(request);
    assert s.records[id].restart.request == request;
    var host :| Plausible(host) && Supervise(s.records[id].restart.request, host).0.Replaced?
                && step.evidence == Some(Supervise(s.records[id].restart.request, host).0.evidence);
    SupervisorSawReplacement(request, host);
  }
}
