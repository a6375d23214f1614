/** Why a restart is recorded as succeeded, over every schedule. */
module OutboxEvidence {
  import opened Prelude
  import opened OutboxRecord
  import opened OutboxRecordProofs
  import opened OutboxSystem
  import opened OutboxProofs
  import opened Services

  /** `mark_reset_succeeded` is called only by a supervisor that reached that verdict on what it saw.
      Reconciliation may look at any backend. */
  ghost predicate Supervised(s: State, step: Step)
    requires Enabled(s, step)
  {
    match step
    case MarkSucceeded(id, evidence, _) =>
      exists host :: Plausible(host) && Supervise(s.records[id].restart.request, host).0.Replaced?
                     && evidence == Some(Supervise(s.records[id].restart.request, host).0.evidence)
    case _ => true
  }

  /** A succeeded bound request keeps evidence of a replacement: another process if the backend is
      still the same, and otherwise another backend. */
  ghost predicate EvidenceOk(r: Record) {
    Bound(r.restart.request) && r.restart.status == RestartSucceeded ==>
      && r.restart.evidence.Some? && r.restart.request.oldIdentity.Some?
      && (AnotherProcess(r.restart.request, r.restart.evidence.value)
          <==> r.restart.evidence.value.backend == r.restart.request.oldIdentity.value.backend)
  }

  lemma SupervisedSuccess(r: Record, host: Host, now: Time)
    requires EvidenceOk(r) && Plausible(host) && Supervise(r.restart.request, host).0.Replaced?
    ensures EvidenceOk(SucceededOf(r, Some(Supervise(r.restart.request, host).0.evidence), now))
  {
    hide Log;
    hide Supervise;
    if Bound(r.restart.request) {
      SupervisorSawReplacement(r.restart.request, host);
    }
  }

  lemma ReconciledSuccess(r: Record, current: Option<Identity>, live: bool, now: Time)
    requires EvidenceOk(r)
    ensures EvidenceOk(ReconciledOf(r, current, live, now))
  {
    hide Log;
  }

  lemma WrittenKeepsEvidence(s: State, step: Step)
    requires Enabled(s, step) && Supervised(s, step) && IsFinaliser(step) && EvidenceOk(s.records[step.id])
    ensures EvidenceOk(Written(s, step))
  {
    hide Log;
    var r := s.records[step.id];
    if step.MarkSucceeded? {
      hide Supervise;
      hide Bound;
      hide SucceededOf;
      var host :| Plausible(host) && Supervise(r.restart.request, host).0.Replaced?
                  && step.evidence == Some(Supervise(r.restart.request, host).0.evidence);
      SupervisedSuccess(r, host, step.now);
    } else if step.Reconcile? {
      ReconciledSuccess(r, step.current, step.supervisorLive, step.now);
    }
  }

  lemma StepKeepsEvidence(s: State, step: Step)
    requires Inv(s) && Enabled(s, step) && Supervised(s, step)
    requires forall id :: id in s.records ==> EvidenceOk(s.records[id])
    ensures var s' := Next(s, step); forall id :: id in s'.records ==> EvidenceOk(s'.records[id])
  {
    hide EvidenceOk;
    hide RecordInv;
    if IsFinaliser(step) {
      hide Written;
      hide Next;
      WrittenIsGood(s, step);
      WrittenKeepsEvidence(s, step);
    } else if step.CommitPrepare? {
      PreparedHasNoEvidence(s.root.value.candidate);
    } else if step.Claim? || step.RecordSuccess? || step.RecordFailure? {
      DeliveryKeepsEvidence(s, step);
    } else {
      hide NewRecord;
    }
  }

  lemma PreparedHasNoEvidence(r: Record)
    requires r.restart.status == Prepared
    ensures EvidenceOk(r)
  {
  }

  lemma SameRestartSameEvidence(r: Record, r': Record)
    requires EvidenceOk(r) && r'.restart == r.restart
    ensures EvidenceOk(r')
  {
  }

  lemma DeliveryKeepsEvidence(s: State, step: Step)
    requires Inv(s) && Enabled(s, step) && (step.Claim? || step.RecordSuccess? || step.RecordFailure?)
    requires forall id :: id in s.records ==> EvidenceOk(s.records[id])
    ensures var s' := Next(s, step); forall id :: id in s'.records ==> EvidenceOk(s'.records[id])
  {
    hide EvidenceOk;
    hide RecordInv;
    hide ClaimedOf;
    hide Backoff;
    hide Log;
    var s' := Next(s, step);
    var id := if step.Claim? then step.id else step.attempt.id;
    if step.Claim? {
      var r := s.records[id];
      ClaimIsGood(r, step.now, step.pid, step.fallback, step.claimerLive);
    }
    assert s'.records[id].restart == s.records[id].restart;
    SameRestartSameEvidence(s.records[id], s'.records[id]);
  }

  /** Whichever finaliser did it: a bound record is recorded as succeeded only with an observation kept
      as evidence, and it shows another process id on the recorded backend exactly when it was made
      on that backend. */
  lemma {:induction false} SuccessMeansReplacement(run: Schedule, i: nat, id: Id)
    requires IsSchedule(run) && Init(run.states[0]) && i < |run.states|
    requires forall j :: 0 <= j < i ==> Supervised(run.states[j], run.steps[j])
    requires id in run.states[i].records && Bound(run.states[i].records[id].restart.request)
    requires run.states[i].records[id].restart.status == RestartSucceeded
    ensures var restart := run.states[i].records[id].restart;
            && restart.evidence.Some? && restart.request.oldIdentity.Some?
            && (AnotherProcess(restart.request, restart.evidence.value)
                <==> restart.evidence.value.backend == restart.request.oldIdentity.value.backend)
  {
    AllEvidenceOk(run, i);
  }

  lemma {:induction false} AllEvidenceOk(run: Schedule, i: nat)
    requires IsSchedule(run) && Init(run.states[0]) && i < |run.states|
    requires forall j :: 0 <= j < i ==> Supervised(run.states[j], run.steps[j])
    ensures forall id :: id in run.states[i].records ==> EvidenceOk(run.states[i].records[id])
  {
    hide EvidenceOk;
    hide Next;
    hide Supervised;
    if i > 0 {
      AllEvidenceOk(run, i - 1);
      InitInv(run.states[0]);
      hide Inv;
      ScheduleInv(run, i - 1);
      StepKeepsEvidence(run.states[i - 1], run.steps[i - 1]);
    }
  }
}
