/** The replay of interrupted turns, over every schedule: who is given a turn, and when it is given
    again. */
module OutboxReplay {
  import opened Prelude
  import opened OutboxRecord
  import opened OutboxRecordProofs
  import opened OutboxSystem
  import opened OutboxProofs

  /** Step `i` gives the interrupted turn of the record to the claimant. */
  predicate GivesTurn(s: State, step: Step, id: Id, claimant: string) {
    id in s.records && step == ClaimReplay(id, claimant) && ReplayClaimedOf(s.records[id], claimant).1
  }

  /** The turn is under way, with somebody. */
  predicate HeldBy(r: Record, claimant: string) {
    && r.restart.status == RestartSucceeded
    && r.replay.status == ReplayClaimed && r.replay.claimedBy == Some(claimant)
    && r.replay.turn != "" && exists i :: 0 <= i < |r.replay.sources| && r.replay.sources[i] != ""
  }

  /** The step ends that: it finishes the turn, or gives it to another identity. */
  predicate TakesTurn(s: State, step: Step, id: Id, claimant: string) {
    (step.FinishReplay? && step.id == id) || (step.ClaimReplay? && step.claimant != claimant && GivesTurn(s, step, id, step.claimant))
  }

  /** A turn is given only after its restart has succeeded, which it then has for ever. */
  lemma TurnsNeedSuccess(run: Schedule, i: nat, j: nat, id: Id, claimant: string)
    requires IsSchedule(run) && Init(run.states[0]) && i < |run.steps| && i <= j < |run.states|
    requires GivesTurn(run.states[i], run.steps[i], id, claimant)
    ensures id in run.states[j].records
    ensures run.states[i].records[id].restart.status == RestartSucceeded == run.states[j].records[id].restart.status
  {
    hide Inv;
    hide Next;
    InitInv(run.states[0]);
    StatusClimbs(run, i, j, id);
  }

  lemma FinalisersKeepReplay(s: State, step: Step)
    requires Enabled(s, step) && IsFinaliser(step) && !step.ClaimReplay? && !step.FinishReplay?
    ensures Written(s, step).replay == s.records[step.id].replay
  {
    hide Log;
  }

  lemma DeliveriesKeepReplay(r: Record, now: Time, permanent: bool)
    ensures DeliveredOf(r, now).replay == r.replay && FailureOf(r, now, permanent).replay == r.replay
    ensures DeliveredOf(r, now).id == r.id == FailureOf(r, now, permanent).id
  {
    hide Log;
    hide Backoff;
  }

  /** No other step touches the replay of a record. */
  lemma OthersKeepReplay(s: State, step: Step, id: Id)
    requires Inv(s) && Enabled(s, step) && id in s.records
    requires !((step.ClaimReplay? || step.FinishReplay?) && step.id == id)
    ensures id in Next(s, step).records && Next(s, step).records[id].replay == s.records[id].replay
  {
    hide RecordInv;
    hide ClaimedOf;
    hide DeliveredOf;
    hide FailureOf;
    if IsFinaliser(step) {
      WrittenIsGood(s, step);
      hide Next;
      hide Written;
      if step.id == id { FinalisersKeepReplay(s, step); }
    } else if step.Claim? {
      ClaimIsGood(s.records[step.id], step.now, step.pid, step.fallback, step.claimerLive);
    } else if step.RecordSuccess? {
      DeliveriesKeepReplay(s.records[step.attempt.id], step.now, false);
    } else if step.RecordFailure? {
      DeliveriesKeepReplay(s.records[step.attempt.id], step.now, step.permanent);
    }
  }

  lemma GivenIsHeld(r: Record, claimant: string)
    requires ReplayClaimedOf(r, claimant).1
    ensures HeldBy(ReplayClaimedOf(r, claimant).0, claimant)
  {
  }

  /** A turn that is held is given to an identity exactly if that is another one: a replacement process
      takes it over, and the holder is not asked. */
  lemma TakenOverExactlyWhen(r: Record, holder: string, claimant: string)
    requires HeldBy(r, holder)
    ensures ReplayClaimedOf(r, claimant).1 <==> claimant != holder
    ensures claimant == holder ==> ReplayClaimedOf(r, claimant).0 == r
  {
  }

  lemma HeldUntilTaken(s: State, step: Step, id: Id, claimant: string)
    requires Inv(s) && Enabled(s, step) && id in s.records && HeldBy(s.records[id], claimant)
    ensures id in Next(s, step).records
    ensures !TakesTurn(s, step, id, claimant) ==> HeldBy(Next(s, step).records[id], claimant)
  {
    hide Inv;
    hide Next;
    StepEvolves(s, step, id);
    if step.ClaimReplay? && step.id == id {
      TakenOverExactlyWhen(s.records[id], claimant, step.claimant);
      WrittenIsGood(s, step);
      InvIds(s, id);
    } else if !(step.FinishReplay? && step.id == id) {
      OthersKeepReplay(s, step, id);
    }
  }

  lemma InvIds(s: State, id: Id)
    requires Inv(s) && id in s.records
    ensures s.records[id].id == id
  {
    hide RecordInv;
  }

  lemma {:induction false} HeldAfter(run: Schedule, i: nat, j: nat, id: Id, claimant: string)
    requires IsSchedule(run) && Init(run.states[0]) && i < j < |run.states|
    requires GivesTurn(run.states[i], run.steps[i], id, claimant)
    requires forall k :: i < k < j ==> !TakesTurn(run.states[k], run.steps[k], id, claimant)
    ensures id in run.states[j].records && HeldBy(run.states[j].records[id], claimant)
  {
    hide Inv;
    hide Next;
    hide HeldBy;
    hide TakesTurn;
    InitInv(run.states[0]);
    ScheduleInv(run, j - 1);
    if j == i + 1 {
      var s := run.states[i];
      WrittenIsGood(s, run.steps[i]);
      GivenIsHeld(s.records[id], claimant);
      InvIds(s, id);
    } else {
      HeldAfter(run, i, j - 1, id, claimant);
      HeldUntilTaken(run.states[j - 1], run.steps[j - 1], id, claimant);
    }
  }

  /** Once per identity: between two gifts of one turn to the same identity, in any schedule, the turn was
      finished or taken over by another. */
  lemma OncePerIdentity(run: Schedule, i: nat, j: nat, id: Id, claimant: string)
    requires IsSchedule(run) && Init(run.states[0]) && i < j < |run.steps|
    requires GivesTurn(run.states[i], run.steps[i], id, claimant) && GivesTurn(run.states[j], run.steps[j], id, claimant)
    ensures exists k :: i < k < j && TakesTurn(run.states[k], run.steps[k], id, claimant)
  {
    hide Next;
    hide TakesTurn;
    if forall k :: i < k < j ==> !TakesTurn(run.states[k], run.steps[k], id, claimant) {
      HeldAfter(run, i, j, id, claimant);
      TakenOverExactlyWhen(run.states[j].records[id], claimant, claimant);
    }
  }

  /** Finishing does not ask who holds the turn: whoever reports it pending takes it from the holder, and
      the holder is given it a second time. */
  lemma FinishingFreesAnothersTurn(s: State, id: Id, holder: string, ownsDelivery: bool, now: Time)
    requires Inv(s) && id in s.records && HeldBy(s.records[id], holder)
    ensures var finish := FinishReplay(id, ReplayPending, ownsDelivery, now);
            && Enabled(s, finish)
            && id in Next(s, finish).records
            && !HeldBy(Next(s, finish).records[id], holder)
            && Enabled(Next(s, finish), ClaimReplay(id, holder))
            && GivesTurn(Next(s, finish), ClaimReplay(id, holder), id, holder)
  {
    hide Inv;
    hide Log;
    InvIds(s, id);
  }

  /** The record has a turn to replay, and its restart is over. */
  predicate HasTurn(r: Record) {
    r.restart.status == RestartSucceeded && r.replay.turn != "" && exists i :: 0 <= i < |r.replay.sources| && r.replay.sources[i] != ""
  }

  /** Exactly which reports leave a turn open to be given, to everybody, whatever its state was: held by
      anyone, or already complete or skipped. So neither `complete` nor `skipped` is final. */
  lemma GivenAgainExactlyWhen(r: Record, outcome: ReplayStatus, ownsDelivery: bool, now: Time, claimant: string)
    requires HasTurn(r) && outcome in {ReplayComplete, ReplayPending, ReplaySkipped}
    ensures ReplayClaimedOf(ReplayFinishedOf(r, outcome, ownsDelivery, now), claimant).1 <==> outcome == ReplayPending
  {
    hide Log;
  }
}
