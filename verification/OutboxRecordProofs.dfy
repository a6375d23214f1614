/** Every write keeps the record invariant and only moves a record forward. */
module OutboxRecordProofs {
  import opened Prelude
  import opened OutboxRecord

  lemma NewRecordInv(id: Id, now: Time, request: Request, ownership: Option<Ownership>,
                     ambient: Option<Provenance>, fallback: string)
    ensures var r := NewRecord(id, now, request, ownership, ambient, fallback);
            r.Some? ==> RecordInv(r.value) && r.value.id == id && r.value.restart.status == Prepared
                         && r.value.delivery.attemptCount == 0
    ensures var r := NewRecord(id, now, request, ownership, ambient, fallback);
            var delegated := ownership.None? && ambient.Some? && ambient.value.delegated;
            && (r.None? <==> ownership == Some(InterruptedTurnCompletion))
            && (r.Some? ==>
                  && r.value.delivery.status in {Ineligible, Suppressed}
                  && (r.value.delivery.status == Ineligible <==>
                        ownership == Some(RestartTerminal) || (ownership.None? && !delegated)))
  {
    hide Log;
  }

  lemma SupervisorStartedIsGood(r: Record, pid: Pid, now: Time)
    ensures GoodStep(r, SupervisorStartedOf(r, pid, now))
  {
    hide Log;
  }

  lemma RestartingIsGood(r: Record, supervisor: Option<Pid>, now: Time)
    ensures GoodStep(r, RestartingOf(r, supervisor, now))
  {
    hide Log;
  }

  lemma SucceededIsGood(r: Record, evidence: Option<Identity>, now: Time)
    ensures GoodStep(r, SucceededOf(r, evidence, now))
    ensures SucceededOf(r, evidence, now).restart.status == RestartSucceeded
  {
    hide Log;
  }

  lemma FailedIsGood(r: Record, now: Time)
    ensures GoodStep(r, FailedOf(r, now))
  {
    hide Log;
  }

  lemma ReconcileIsGood(r: Record, current: Option<Identity>, live: bool, now: Time)
    ensures GoodStep(r, ReconciledOf(r, current, live, now))
  {
    hide Log;
  }

  /** When a claim grants an attempt, and when it changes the delivery at all. */
  lemma ClaimGrants(r: Record, now: Time, pid: Pid, fallback: string, live: bool)
    ensures var (r', granted) := ClaimedOf(r, now, pid, fallback, live);
            && r'.restart == r.restart && r'.replay == r.replay
            && (granted ==>
                  && !Active(r.restart.status) && !Terminal(r.delivery.status)
                  && r'.delivery.status == Sending
                  && r'.delivery.attemptCount == r.delivery.attemptCount + 1 <= MAX_ATTEMPTS
                  && r'.delivery.attemptId == Some(AttemptId(r.id, r.delivery.attemptCount + 1))
                  && r'.delivery.claimer == Some(pid)
                  && r'.delivery.claimExpires == Some(now + CLAIM_LEASE_SECONDS))
            && (!granted ==> r'.delivery.attemptCount == r.delivery.attemptCount)
            && (granted || r'.delivery.status != r.delivery.status ==>
                  !Terminal(r.delivery.status) && !(r.delivery.status == Sending && LeaseHeld(r.delivery, now, live) && r.current))
  {
    hide Log;
    hide HasReplyTarget;
    hide Blank;
  }

  lemma ClaimIsGood(r: Record, now: Time, pid: Pid, fallback: string, live: bool)
    ensures var (r', granted) := ClaimedOf(r, now, pid, fallback, live);
            && GoodStep(r, r')
            && r'.restart == r.restart && r'.replay == r.replay
            && (granted ==>
                  && !Active(r.restart.status) && !Terminal(r.delivery.status)
                  && r'.delivery.status == Sending
                  && r'.delivery.attemptCount == r.delivery.attemptCount + 1 <= MAX_ATTEMPTS
                  && r'.delivery.attemptId == Some(AttemptId(r.id, r.delivery.attemptCount + 1))
                  && r'.delivery.claimer == Some(pid)
                  && r'.delivery.claimExpires == Some(now + CLAIM_LEASE_SECONDS))
            && (!granted ==> r'.delivery.attemptCount == r.delivery.attemptCount)
            && (granted || r'.delivery.status != r.delivery.status ==>
                  !Terminal(r.delivery.status) && !(r.delivery.status == Sending && LeaseHeld(r.delivery, now, live) && r.current))
  {
    hide SetDelivery;
    hide GoodStep;
    hide HasReplyTarget;
    hide Blank;
    hide LeaseHeld;
    ClaimGrants(r, now, pid, fallback, live);
    var d := r.delivery;
    if Active(r.restart.status) || Terminal(d.status) || ClaimedOf(r, now, pid, fallback, live).0 == r {
      StandingStillIsGood(r);
    } else if !r.current {
      DeliveryIsGood(r, d, Suppressed, now);
      assert r.(delivery := d) == r;
    } else {
      var d1 := if d.status == Sending then d.(history := Log(d.history, Unknown, now)) else d;
      var d2 := if HasReplyTarget(d1) then d1 else d1.(fallback := if d1.fallback != "" then d1.fallback else fallback);
      var n := d2.attemptCount + 1;
      DeliveryIsGood(r, d1, AwaitingTarget, now);
      DeliveryIsGood(r, d2, DeliveryFailed, now);
      DeliveryIsGood(r, d2.(attemptCount := n, attemptId := Some(AttemptId(r.id, n)), claimer := Some(pid),
                            claimExpires := Some(now + CLAIM_LEASE_SECONDS), nextAttempt := None), Sending, now);
    }
  }

  lemma StandingStillIsGood(r: Record)
    ensures GoodStep(r, r)
  {
  }

  /** Any write to the delivery of a finished restart that stays within the budget. */
  lemma DeliveryIsGood(r: Record, d: Delivery, status: DeliveryStatus, now: Time)
    requires !Active(r.restart.status)
    ensures r.delivery.attemptCount <= d.attemptCount <= r.delivery.attemptCount + 1
            && (d.attemptCount <= MAX_ATTEMPTS || d.attemptCount == r.delivery.attemptCount)
            ==> GoodStep(r, SetDelivery(r.(delivery := d), status, now))
  {
    hide Log;
  }

  lemma DeliveredIsGood(r: Record, now: Time)
    requires !Active(r.restart.status)
    ensures GoodStep(r, DeliveredOf(r, now))
    ensures DeliveredOf(r, now).restart == r.restart && DeliveredOf(r, now).delivery.attemptCount == r.delivery.attemptCount
  {
    hide Log;
  }

  lemma FailureIsGood(r: Record, now: Time, permanent: bool)
    requires !Active(r.restart.status)
    ensures GoodStep(r, FailureOf(r, now, permanent))
    ensures FailureOf(r, now, permanent).restart == r.restart
    ensures FailureOf(r, now, permanent).delivery.attemptCount == r.delivery.attemptCount
  {
    hide Log;
    hide Backoff;
  }

  lemma ReplayIsGood(r: Record, claimant: string, status: ReplayStatus, owns: bool, now: Time)
    requires status in {ReplayComplete, ReplayPending, ReplaySkipped}
    ensures GoodStep(r, ReplayClaimedOf(r, claimant).0)
    ensures GoodStep(r, ReplayFinishedOf(r, status, owns, now))
  {
    hide Log;
  }
}
