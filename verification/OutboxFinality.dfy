/** Which statuses a record can leave again, and by which steps exactly. */
module OutboxFinality {
  import opened Prelude
  import opened OutboxRecord
  import opened OutboxRecordProofs
  import opened OutboxSystem
  import opened OutboxProofs

  /** The step reconciles an active restart of the record as failed. */
  predicate ReconcilesFailure(r: Record, step: Step) {
    && step.Reconcile? && step.id == r.id
    && Active(r.restart.status)
    && !IdentityChanged(r.restart.request.oldIdentity, step.current)
    && !(r.restart.supervisorPid.Some? && r.restart.supervisorPid.value > 0 && step.supervisorLive)
  }

  /** The step records the outcome of an attempt of the record. */
  predicate RecordsOutcome(step: Step, id: Id) {
    (step.RecordSuccess? || step.RecordFailure?) && step.attempt.id == id
  }

  lemma FinalisersOnSuppressed(s: State, step: Step)
    requires Enabled(s, step) && IsFinaliser(step) && s.records[step.id].id == step.id
    requires s.records[step.id].delivery.status == Suppressed
    ensures Written(s, step).delivery.status != Suppressed <==> ReconcilesFailure(s.records[step.id], step) && s.records[step.id].current
  {
    hide Log;
    hide IdentityChanged;
  }

  lemma ClaimsOnSuppressed(r: Record, now: Time, pid: Pid, fallback: string, live: bool)
    requires r.delivery.status == Suppressed
    ensures ClaimedOf(r, now, pid, fallback, live) == (r, false)
  {
  }

  lemma OutcomesAreNotSuppressed(r: Record, now: Time, permanent: bool)
    ensures DeliveredOf(r, now).delivery.status != Suppressed && FailureOf(r, now, permanent).delivery.status != Suppressed
    ensures DeliveredOf(r, now).id == r.id == FailureOf(r, now, permanent).id
  {
    hide Log;
    hide Backoff;
  }

  predicate Leaves(s: State, step: Step, id: Id) {
    id in s.records && ((ReconcilesFailure(s.records[id], step) && s.records[id].current) || RecordsOutcome(step, id))
  }

  predicate IsSuppressed(s: State, id: Id) {
    id in s.records && s.records[id].delivery.status == Suppressed
  }

  lemma InvIds(s: State)
    requires Inv(s)
    ensures forall id :: id in s.records ==> s.records[id].id == id
    ensures s.root.Some? ==> s.root.value.candidate.id !in s.records
  {
    hide RecordInv;
  }

  lemma LeftByFinaliser(s: State, step: Step, id: Id)
    requires Inv(s) && Enabled(s, step) && IsFinaliser(step) && IsSuppressed(s, id)
    ensures !IsSuppressed(Next(s, step), id) <==> Leaves(s, step, id)
  {
    hide Inv;
    hide Written;
    hide Next;
    hide ReconcilesFailure;
    InvIds(s);
    WrittenIsGood(s, step);
    if step.id == id {
      FinalisersOnSuppressed(s, step);
    } else {
      OnlyItsRecord(s.records[id], step);
    }
  }

  lemma OnlyItsRecord(r: Record, step: Step)
    ensures ReconcilesFailure(r, step) ==> step.Reconcile? && step.id == r.id
  {
  }

  lemma LeftByDelivery(s: State, step: Step, id: Id)
    requires Inv(s) && Enabled(s, step) && (step.Claim? || step.RecordSuccess? || step.RecordFailure?) && IsSuppressed(s, id)
    ensures !IsSuppressed(Next(s, step), id) <==> Leaves(s, step, id)
  {
    hide Inv;
    hide ClaimedOf;
    hide DeliveredOf;
    hide FailureOf;
    InvIds(s);
    if step.Claim? {
      var r := s.records[step.id];
      ClaimIsGood(r, step.now, step.pid, step.fallback, step.claimerLive);
      if step.id == id { ClaimsOnSuppressed(r, step.now, step.pid, step.fallback, step.claimerLive); }
    } else if step.RecordSuccess? {
      OutcomesAreNotSuppressed(s.records[step.attempt.id], step.now, false);
    } else {
      OutcomesAreNotSuppressed(s.records[step.attempt.id], step.now, step.permanent);
    }
  }

  /** `suppressed` is called terminal, and is left exactly in two ways: a reconciled failure reopens the
      delivery of a current record, and the outcome of an attempt that was outstanding when a
      recovered turn took the delivery over is recorded all the same. */
  lemma SuppressedLeftExactlyWhen(s: State, step: Step, id: Id)
    requires Inv(s) && Enabled(s, step) && IsSuppressed(s, id)
    ensures id in Next(s, step).records
    ensures !IsSuppressed(Next(s, step), id) <==> Leaves(s, step, id)
  {
    StepEvolves(s, step, id);
    if IsFinaliser(step) {
      LeftByFinaliser(s, step, id);
    } else if step.Claim? || step.RecordSuccess? || step.RecordFailure? {
      LeftByDelivery(s, step, id);
    } else {
      hide Inv;
      hide NewRecord;
      InvIds(s);
    }
  }

  lemma FinalisersOnFailed(s: State, step: Step)
    requires Enabled(s, step) && IsFinaliser(step) && s.records[step.id].restart.status == RestartFailed
    ensures Written(s, step).restart.status != RestartFailed <==> step.MarkSucceeded?
  {
    hide Log;
  }

  /** Deliveries never touch a restart, nor do scans. */
  lemma OthersKeepRestart(s: State, step: Step, id: Id)
    requires Inv(s) && Enabled(s, step) && !IsFinaliser(step) && id in s.records
    ensures id in Next(s, step).records && Next(s, step).records[id].restart == s.records[id].restart
  {
    hide Inv;
    hide ClaimedOf;
    hide DeliveredOf;
    hide FailureOf;
    hide NewRecord;
    InvIds(s);
    if step.Claim? {
      ClaimIsGood(s.records[step.id], step.now, step.pid, step.fallback, step.claimerLive);
    } else if step.RecordSuccess? {
      OutcomesKeepRestart(s.records[step.attempt.id], step.now, false);
    } else if step.RecordFailure? {
      OutcomesKeepRestart(s.records[step.attempt.id], step.now, step.permanent);
    }
  }

  lemma OutcomesKeepRestart(r: Record, now: Time, permanent: bool)
    ensures DeliveredOf(r, now).restart == r.restart == FailureOf(r, now, permanent).restart
    ensures DeliveredOf(r, now).id == r.id == FailureOf(r, now, permanent).id
  {
    hide Log;
    hide Backoff;
  }

  /** A failed restart is left exactly by marking it succeeded. */
  lemma FailedLeftExactlyWhen(s: State, step: Step, id: Id)
    requires Inv(s) && Enabled(s, step) && id in s.records && s.records[id].restart.status == RestartFailed
    ensures id in Next(s, step).records
    ensures Next(s, step).records[id].restart.status != RestartFailed <==> step.MarkSucceeded? && step.id == id
  {
    hide Inv;
    hide Next;
    hide Written;
    if IsFinaliser(step) {
      InvIds(s);
      WrittenIsGood(s, step);
      if step.id == id { FinalisersOnFailed(s, step); }
    } else {
      OthersKeepRestart(s, step, id);
    }
  }
}
