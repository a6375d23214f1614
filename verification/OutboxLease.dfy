/** What the delivery lease buys: if every claimer records its outcome or dies before its lease
    lapses, and no live claimer is taken for dead, then one attempt at a time, a final `delivered`, and a bounded total backoff. */
module OutboxLease {
  import opened Prelude
  import opened OutboxRecord
  import opened OutboxRecordProofs
  import opened OutboxSystem
  import opened OutboxProofs

  /** No outstanding attempt has outlived its lease. */
  ghost predicate Disciplined(s: State) {
    forall a :: a in s.attempts ==> s.clock < a.lease
  }

  /** A claim does not take the live claimer of the record for dead. */
  ghost predicate JudgesFairly(s: State, step: Step) {
    step.Claim? && step.id in s.records && IsLive(s, s.records[step.id].delivery.claimer) ==> step.claimerLive
  }

  predicate HasAttempt(s: State, id: Id) {
    exists a :: a in s.attempts && a.id == id
  }

  /** The record of an outstanding attempt still carries that very claim, unless the recovered
      turn has taken the delivery over. */
  ghost predicate ClaimCurrent(s: State, a: Attempt) {
    && a.id in s.records
    && var d := s.records[a.id].delivery;
    && d.attemptCount == a.number
    && (d.status == Suppressed || (d.status == Sending && d.claimer == Some(a.pid) && d.claimExpires == Some(a.lease)))
  }

  function TotalBackoff(backoffs: seq<Scheduled>, id: Id): nat {
    if backoffs == [] then 0
    else
      var b := backoffs[|backoffs| - 1];
      TotalBackoff(backoffs[..|backoffs| - 1], id) + if b.id == id then b.delay else 0
  }

  /** The sum of the first `n` backoffs; only seven are ever scheduled. */
  function Budget(n: nat): nat {
    RETRY_BASE_SECONDS * (Pow2(if n < 7 then n else 7) - 1)
  }

  /** Attempts of the record whose outcome can still be recorded do not count yet. */
  function Resolved(s: State, id: Id): nat
    requires id in s.records
  {
    var n := s.records[id].delivery.attemptCount;
    if HasAttempt(s, id) && n > 0 then n - 1 else n
  }

  ghost predicate LeaseInv(s: State) {
    && (forall a :: a in s.attempts ==> ClaimCurrent(s, a))
    && (forall a, b :: a in s.attempts && b in s.attempts && a.id == b.id ==> a == b)
    && (forall id :: id in s.records ==> TotalBackoff(s.backoffs, id) <= Budget(Resolved(s, id)))
    && (forall i :: 0 <= i < |s.backoffs| ==> s.backoffs[i].id in s.records)
  }

  lemma {:induction false} Pow2Monotone(m: nat, n: nat)
    requires m <= n
    ensures 1 <= Pow2(m) <= Pow2(n)
    decreases n
  {
    if m < n { Pow2Monotone(m, n - 1); } else if n > 0 { Pow2Monotone(m - 1, n - 1); }
  }

  lemma BudgetMonotone(m: nat, n: nat)
    requires m <= n
    ensures Budget(m) <= Budget(n) <= 3810
  {
    Pow2Monotone(if m < 7 then m else 7, if n < 7 then n else 7);
    Pow2Monotone(if n < 7 then n else 7, 7);
    assert Pow2(7) == 2 * 2 * 2 * 2 * 2 * 2 * 2;
  }

  lemma BackoffWithinBudget(n: nat)
    requires 1 <= n < MAX_ATTEMPTS
    ensures Budget(n - 1) + Backoff(n) <= Budget(n)
  {
  }

  lemma TotalBackoffSnoc(backoffs: seq<Scheduled>, b: Scheduled, id: Id)
    ensures TotalBackoff(backoffs + [b], id) == TotalBackoff(backoffs, id) + if b.id == id then b.delay else 0
  {
    assert (backoffs + [b])[..|backoffs|] == backoffs;
  }

  lemma {:induction false} TotalBackoffZero(backoffs: seq<Scheduled>, id: Id)
    requires forall i :: 0 <= i < |backoffs| ==> backoffs[i].id != id
    ensures TotalBackoff(backoffs, id) == 0
  {
    if backoffs != [] { TotalBackoffZero(backoffs[..|backoffs| - 1], id); }
  }

  /** A claim is granted only when nothing is outstanding, and never disturbs what is. */
  lemma ClaimRespectsLease(s: State, step: Step)
    requires Inv(s) && LeaseInv(s) && Disciplined(s) && JudgesFairly(s, step) && Enabled(s, step) && step.Claim?
    ensures var r := s.records[step.id];
            var (r', granted) := ClaimedOf(r, step.now, step.pid, step.fallback, step.claimerLive);
            HasAttempt(s, step.id) ==> !granted && (r'.delivery == r.delivery || r'.delivery.status == Suppressed)
  {
    hide RecordInv;
    hide Log;
    if HasAttempt(s, step.id) {
      var a :| a in s.attempts && a.id == step.id;
      assert ClaimCurrent(s, a) && AttemptOk(s, a);
    }
  }

  /** Replacing a record in a way its outstanding attempt can live with. */
  lemma PutKeepsLease(s: State, r': Record)
    requires LeaseInv(s) && r'.id in s.records
    requires s.records[r'.id].delivery.attemptCount <= r'.delivery.attemptCount
    requires HasAttempt(s, r'.id) ==>
               var d, d' := s.records[r'.id].delivery, r'.delivery;
               && d'.attemptCount == d.attemptCount
               && (d'.status == Suppressed ||
                   (d'.status == d.status && d'.claimer == d.claimer && d'.claimExpires == d.claimExpires))
    ensures LeaseInv(Put(s, r'))
  {
    hide Budget;
    var s' := Put(s, r');
    forall a | a in s'.attempts ensures ClaimCurrent(s', a) {
      assert ClaimCurrent(s, a);
    }
    forall id | id in s'.records ensures TotalBackoff(s'.backoffs, id) <= Budget(Resolved(s', id)) {
      assert HasAttempt(s', id) == HasAttempt(s, id);
      BudgetMonotone(Resolved(s, id), Resolved(s', id));
    }
  }

  /** Attempts may vanish: their process died. */
  lemma FewerAttemptsKeepLease(s: State, attempts: set<Attempt>)
    requires LeaseInv(s) && attempts <= s.attempts
    ensures LeaseInv(s.(attempts := attempts))
  {
    hide Budget;
    var s' := s.(attempts := attempts);
    forall a | a in s'.attempts ensures ClaimCurrent(s', a) {
      assert ClaimCurrent(s, a);
    }
    forall id | id in s'.records ensures TotalBackoff(s'.backoffs, id) <= Budget(Resolved(s', id)) {
      assert HasAttempt(s', id) ==> HasAttempt(s, id);
      BudgetMonotone(Resolved(s, id), Resolved(s', id));
    }
  }

  /** An attempt may be granted for a record that has none and has just counted it. */
  lemma GrantKeepsLease(s: State, r': Record, a: Attempt)
    requires LeaseInv(s) && r'.id in s.records && !HasAttempt(s, r'.id)
    requires r'.delivery.attemptCount == s.records[r'.id].delivery.attemptCount + 1
    requires a.id == r'.id && a.number == r'.delivery.attemptCount
    requires r'.delivery.status == Sending && r'.delivery.claimer == Some(a.pid) && r'.delivery.claimExpires == Some(a.lease)
    ensures LeaseInv(Put(s, r').(attempts := s.attempts + {a}))
  {
    hide Budget;
    var s' := Put(s, r').(attempts := s.attempts + {a});
    forall b | b in s'.attempts ensures ClaimCurrent(s', b) {
      if b in s.attempts { assert ClaimCurrent(s, b); }
    }
    forall id | id in s'.records ensures TotalBackoff(s'.backoffs, id) <= Budget(Resolved(s', id)) {
      if id == a.id {
        assert a in s'.attempts;
      } else {
        assert HasAttempt(s', id) == HasAttempt(s, id);
      }
    }
  }

  /** The invariant speaks of the records, the attempts and the backoffs only. */
  lemma FrameKeepsLease(s: State, s': State)
    requires LeaseInv(s)
    requires s'.records == s.records && s'.attempts == s.attempts && s'.backoffs == s.backoffs
    ensures LeaseInv(s')
  {
    hide Budget;
    assert forall a :: a in s.attempts ==> ClaimCurrent(s, a) ==> ClaimCurrent(s', a);
    assert forall id :: id in s.records ==> HasAttempt(s', id) == HasAttempt(s, id);
  }

  lemma ClaimKeepsLease(s: State, step: Step)
    requires Inv(s) && LeaseInv(s) && Disciplined(s) && JudgesFairly(s, step) && Enabled(s, step) && step.Claim?
    ensures LeaseInv(Next(s, step))
  {
    hide RecordInv;
    hide ClaimedOf;
    hide LeaseInv;
    var r := s.records[step.id];
    var live := step.claimerLive;
    var (r', granted) := ClaimedOf(r, step.now, step.pid, step.fallback, live);
    ClaimIsGood(r, step.now, step.pid, step.fallback, live);
    ClaimRespectsLease(s, step);
    if granted {
      var a := Attempt(step.id, r'.delivery.attemptCount, step.pid, step.now + CLAIM_LEASE_SECONDS, r.restart.status, Granted);
      GrantKeepsLease(s, r', a);
      FrameKeepsLease(Put(s, r').(attempts := s.attempts + {a}), Next(s, step));
    } else {
      PutKeepsLease(s, r');
    }
  }

  /** An attempt may move to its next phase. */
  lemma PhaseKeepsLease(s: State, a: Attempt, a': Attempt)
    requires LeaseInv(s) && a in s.attempts && a'.(phase := a.phase) == a
    ensures LeaseInv(s.(attempts := s.attempts - {a} + {a'}))
  {
    hide Budget;
    hide TotalBackoff;
    var s' := s.(attempts := s.attempts - {a} + {a'});
    assert ClaimCurrent(s, a);
    forall b | b in s'.attempts ensures ClaimCurrent(s', b) {
      if b in s.attempts { assert ClaimCurrent(s, b); }
    }
    forall id | id in s'.records ensures HasAttempt(s', id) == HasAttempt(s, id) {
      if HasAttempt(s, id) {
        var b :| b in s.attempts && b.id == id;
        assert (if b == a then a' else b) in s'.attempts;
      }
    }
  }

  lemma SendKeepsLease(s: State, step: Step)
    requires Inv(s) && LeaseInv(s) && Enabled(s, step) && step.Send?
    ensures LeaseInv(Next(s, step))
  {
    hide Inv;
    hide LeaseInv;
    var a := step.attempt;
    var a' := a.(phase := if step.ok then SendSucceeded else SendRaised);
    PhaseKeepsLease(s, a, a');
    FrameKeepsLease(s.(attempts := s.attempts - {a} + {a'}), Next(s, step));
  }

  /** Recording the outcome of attempt `a`: the attempt goes, and a retry schedules its backoff. */
  lemma ResolveKeepsLease(s: State, r': Record, a: Attempt, backoffs: seq<Scheduled>)
    requires Inv(s) && LeaseInv(s) && a in s.attempts && r'.id == a.id
    requires r'.delivery.attemptCount == s.records[a.id].delivery.attemptCount
    requires backoffs == s.backoffs || (a.number < MAX_ATTEMPTS && backoffs == s.backoffs + [Scheduled(a.id, Backoff(a.number))])
    ensures LeaseInv(Put(s, r').(attempts := s.attempts - {a}, backoffs := backoffs))
  {
    hide RecordInv;
    hide Resolved;
    hide TotalBackoff;
    hide Budget;
    hide Backoff;
    var s' := Put(s, r').(attempts := s.attempts - {a}, backoffs := backoffs);
    assert ClaimCurrent(s, a) && AttemptOk(s, a);
    forall b | b in s'.attempts ensures ClaimCurrent(s', b) {
      assert ClaimCurrent(s, b);
    }
    forall id | id in s'.records ensures TotalBackoff(s'.backoffs, id) <= Budget(Resolved(s', id)) {
      ResolveKeepsBudget(s, s', a, id);
    }
  }

  lemma ResolveKeepsBudget(s: State, s': State, a: Attempt, id: Id)
    requires a in s.attempts && s'.attempts == s.attempts - {a} && a.number >= 1
    requires forall b :: b in s.attempts && b.id == a.id ==> b == a
    requires id in s.records && id in s'.records && a.id in s.records
    requires s'.records[id].delivery.attemptCount == s.records[id].delivery.attemptCount
    requires s.records[a.id].delivery.attemptCount == a.number
    requires s'.backoffs == s.backoffs
             || (a.number < MAX_ATTEMPTS && s'.backoffs == s.backoffs + [Scheduled(a.id, Backoff(a.number))])
    requires TotalBackoff(s.backoffs, id) <= Budget(Resolved(s, id))
    ensures TotalBackoff(s'.backoffs, id) <= Budget(Resolved(s', id))
  {
    hide Budget;
    hide Backoff;
    assert HasAttempt(s', id) ==> HasAttempt(s, id);
    BudgetMonotone(Resolved(s, id), Resolved(s', id));
    if s'.backoffs != s.backoffs {
      TotalBackoffSnoc(s.backoffs, Scheduled(a.id, Backoff(a.number)), id);
      if id == a.id {
        assert !HasAttempt(s', id) && HasAttempt(s, id);
        assert Resolved(s, id) == a.number - 1 && Resolved(s', id) == a.number;
        BackoffWithinBudget(a.number);
      }
    }
  }

  lemma OutcomeKeepsLease(s: State, step: Step)
    requires Inv(s) && LeaseInv(s) && Enabled(s, step) && (step.RecordSuccess? || step.RecordFailure?)
    ensures LeaseInv(Next(s, step))
  {
    hide RecordInv;
    hide DeliveredOf;
    hide FailureOf;
    hide Budget;
    hide Backoff;
    var a, r := step.attempt, s.records[step.attempt.id];
    assert ClaimCurrent(s, a) && AttemptOk(s, a);
    hide LeaseInv;
    hide Inv;
    if step.RecordSuccess? {
      DeliveredIsGood(r, step.now);
      ResolveKeepsLease(s, DeliveredOf(r, step.now), a, s.backoffs);
      assert Next(s, step) == Put(s, DeliveredOf(r, step.now)).(attempts := s.attempts - {a}, backoffs := s.backoffs);
    } else {
      FailureIsGood(r, step.now, step.permanent);
      ResolveKeepsLease(s, FailureOf(r, step.now, step.permanent), a, Next(s, step).backoffs);
    }
  }

  /** What the finalisers may do to a delivery that is being sent or is already final. */
  lemma WrittenRespectsClaim(s: State, step: Step)
    requires Inv(s) && Enabled(s, step) && IsFinaliser(step)
    requires !Active(s.records[step.id].restart.status)
    ensures var d, d' := s.records[step.id].delivery, Written(s, step).delivery;
            && (d.status in {Sending, Suppressed} ==>
                  d'.attemptCount == d.attemptCount && d'.claimer == d.claimer && d'.claimExpires == d.claimExpires
                  && d'.status in {d.status, Suppressed})
            && (d.status == Delivered ==> d'.status == Delivered)
  {
    hide RecordInv;
    hide Log;
  }

  /** A finaliser leaves an outstanding attempt's claim in place, or suppresses the delivery. */
  lemma FinaliserRespectsAttempt(s: State, step: Step)
    requires Inv(s) && LeaseInv(s) && Enabled(s, step) && IsFinaliser(step) && HasAttempt(s, step.id)
    ensures var d, d' := s.records[step.id].delivery, Written(s, step).delivery;
            && d'.attemptCount == d.attemptCount
            && (d'.status == Suppressed ||
                (d'.status == d.status && d'.claimer == d.claimer && d'.claimExpires == d.claimExpires))
  {
    hide RecordInv;
    hide Written;
    hide Budget;
    hide TotalBackoff;
    var a :| a in s.attempts && a.id == step.id;
    assert ClaimCurrent(s, a) && AttemptOk(s, a);
    WrittenRespectsClaim(s, step);
  }

  lemma FinaliserKeepsLease(s: State, step: Step)
    requires Inv(s) && LeaseInv(s) && Enabled(s, step) && IsFinaliser(step)
    ensures LeaseInv(Next(s, step))
  {
    hide RecordInv;
    hide Written;
    hide Next;
    hide LeaseInv;
    WrittenIsGood(s, step);
    if HasAttempt(s, step.id) { FinaliserRespectsAttempt(s, step); }
    PutKeepsLease(s, Written(s, step));
  }

  lemma CrashKeepsLease(s: State, step: Step)
    requires Inv(s) && LeaseInv(s) && Enabled(s, step) && (step.Tick? || step.Spawn? || step.Crash?)
    ensures LeaseInv(Next(s, step))
  {
    hide RecordInv;
    hide LeaseInv;
    var s' := Next(s, step);
    FewerAttemptsKeepLease(s, s'.attempts);
    FrameKeepsLease(s.(attempts := s'.attempts), s');
  }

  /** A record that is new, with no attempt counted, may be added. */
  lemma NewRecordKeepsLease(s: State, r: Record)
    requires LeaseInv(s) && r.id !in s.records && r.delivery.attemptCount == 0
    ensures LeaseInv(Put(s, r))
  {
    hide Budget;
    hide TotalBackoff;
    var s' := Put(s, r);
    forall a | a in s'.attempts ensures ClaimCurrent(s', a) {
      assert ClaimCurrent(s, a);
    }
    forall id | id in s'.records ensures TotalBackoff(s'.backoffs, id) <= Budget(Resolved(s', id)) {
      if id in s.records {
        assert HasAttempt(s', id) == HasAttempt(s, id);
      } else {
        TotalBackoffZero(s'.backoffs, id);
        BudgetMonotone(0, Resolved(s', id));
      }
    }
  }

  lemma CommitKeepsLease(s: State)
    requires Inv(s) && LeaseInv(s) && Enabled(s, CommitPrepare)
    ensures LeaseInv(Next(s, CommitPrepare))
  {
    hide RecordInv;
    hide LeaseInv;
    var c := s.root.value.candidate;
    NewRecordKeepsLease(s, c);
    FrameKeepsLease(Put(s, c), Next(s, CommitPrepare));
  }

  predicate IsScan(step: Step) {
    step.BeginPrepare? || step.ReadRecord? || step.SkipUnreadable? || step.NextScan? || step.AbortPrepare?
  }

  lemma ScanKeepsLease(s: State, step: Step)
    requires LeaseInv(s) && Enabled(s, step) && IsScan(step)
    ensures LeaseInv(Next(s, step))
  {
    hide NewRecord;
    hide LeaseInv;
    FrameKeepsLease(s, Next(s, step));
  }

  lemma StepKeepsLease(s: State, step: Step)
    requires Inv(s) && LeaseInv(s) && Disciplined(s) && JudgesFairly(s, step) && Enabled(s, step)
    ensures LeaseInv(Next(s, step))
  {
    hide Inv;
    hide LeaseInv;
    hide Next;
    if IsFinaliser(step) {
      FinaliserKeepsLease(s, step);
    } else if step.Claim? {
      ClaimKeepsLease(s, step);
    } else if step.Send? {
      SendKeepsLease(s, step);
    } else if step.RecordSuccess? || step.RecordFailure? {
      OutcomeKeepsLease(s, step);
    } else if step.Tick? || step.Spawn? || step.Crash? {
      CrashKeepsLease(s, step);
    } else if step.CommitPrepare? {
      CommitKeepsLease(s);
    } else {
      ScanKeepsLease(s, step);
    }
  }

  lemma {:induction false} ScheduleLease(run: Schedule, i: nat)
    requires IsSchedule(run) && Init(run.states[0]) && i < |run.states|
    requires forall j :: 0 <= j < i ==> Disciplined(run.states[j]) && JudgesFairly(run.states[j], run.steps[j])
    ensures Inv(run.states[i]) && LeaseInv(run.states[i])
  {
    hide Inv;
    hide Next;
    InitInv(run.states[0]);
    ScheduleInv(run, i);
    if i > 0 {
      hide LeaseInv;
      ScheduleLease(run, i - 1);
      StepKeepsLease(run.states[i - 1], run.steps[i - 1]);
    }
  }

  /** One live attempt at a time: on a disciplined and fairly judged schedule no record ever has two outstanding
      attempts, and all the backoffs a record ever gets sum to at most 3810 seconds. */
  lemma OneAttemptAtATime(run: Schedule, i: nat, id: Id)
    requires IsSchedule(run) && Init(run.states[0]) && i < |run.states|
    requires forall j :: 0 <= j < i ==> Disciplined(run.states[j]) && JudgesFairly(run.states[j], run.steps[j])
    ensures forall a, b :: a in run.states[i].attempts && b in run.states[i].attempts && a.id == b.id ==> a == b
    ensures TotalBackoff(run.states[i].backoffs, id) <= 3810
  {
    hide Inv;
    hide Next;
    hide Budget;
    ScheduleLease(run, i);
    if id in run.states[i].records {
      BudgetMonotone(Resolved(run.states[i], id), Resolved(run.states[i], id));
    } else {
      TotalBackoffZero(run.states[i].backoffs, id);
    }
  }

  lemma DeliveredIsKept(s: State, step: Step, id: Id)
    requires Inv(s) && LeaseInv(s) && Enabled(s, step)
    requires id in s.records && s.records[id].delivery.status == Delivered
    ensures id in Next(s, step).records && Next(s, step).records[id].delivery.status == Delivered
  {
    if IsFinaliser(step) {
      FinalisersKeepDelivered(s, step, id);
    } else if step.RecordSuccess? || step.RecordFailure? {
      hide RecordInv;
      hide FailureOf;
      hide DeliveredOf;
      assert ClaimCurrent(s, step.attempt) && AttemptOk(s, step.attempt);
      OutcomesTouchOneRecord(s, step, id);
    } else {
      OthersKeepDelivered(s, step, id);
    }
  }

  lemma FinalisersKeepDelivered(s: State, step: Step, id: Id)
    requires Inv(s) && Enabled(s, step) && IsFinaliser(step)
    requires id in s.records && s.records[id].delivery.status == Delivered
    ensures id in Next(s, step).records && Next(s, step).records[id].delivery.status == Delivered
  {
    hide Written;
    hide Next;
    WrittenIsGood(s, step);
    if step.id == id { WrittenRespectsClaim(s, step); }
  }

  lemma OutcomesTouchOneRecord(s: State, step: Step, id: Id)
    requires Enabled(s, step) && (step.RecordSuccess? || step.RecordFailure?)
    requires id in s.records && id != step.attempt.id
    requires s.records[step.attempt.id].id == step.attempt.id
    ensures id in Next(s, step).records && Next(s, step).records[id] == s.records[id]
  {
    hide Backoff;
    hide Log;
  }

  lemma OthersKeepDelivered(s: State, step: Step, id: Id)
    requires Inv(s) && Enabled(s, step)
    requires !IsFinaliser(step) && !step.RecordSuccess? && !step.RecordFailure?
    requires id in s.records && s.records[id].delivery.status == Delivered
    ensures id in Next(s, step).records && Next(s, step).records[id].delivery.status == Delivered
  {
    hide ClaimedOf;
    hide RecordInv;
    hide NewRecord;
    if step.Claim? {
      var r := s.records[step.id];
      ClaimIsGood(r, step.now, step.pid, step.fallback, step.claimerLive);
    }
  }

  /** `delivered` is final on a disciplined and fairly judged schedule. */
  lemma {:induction false} DeliveredIsFinal(run: Schedule, i: nat, j: nat, id: Id)
    requires IsSchedule(run) && Init(run.states[0]) && i <= j < |run.states|
    requires forall m :: 0 <= m < j ==> Disciplined(run.states[m]) && JudgesFairly(run.states[m], run.steps[m])
    requires id in run.states[i].records && run.states[i].records[id].delivery.status == Delivered
    ensures id in run.states[j].records && run.states[j].records[id].delivery.status == Delivered
  {
    hide Inv;
    hide LeaseInv;
    hide Next;
    if i < j {
      DeliveredIsFinal(run, i, j - 1, id);
      ScheduleLease(run, j - 1);
      DeliveredIsKept(run.states[j - 1], run.steps[j - 1], id);
    }
  }

  /** There is somebody to send to: a reply target, or a fallback conversation. */
  predicate Addressed(d: Delivery, fallback: string) {
    HasReplyTarget(d) || !Blank(if d.fallback != "" then d.fallback else fallback)
  }

  /** Both halves of the discipline are needed: a claim is granted beside an outstanding live attempt
      of a deliverable record exactly when that attempt's lease has lapsed or its live claimer is
      taken for dead. */
  lemma LapsedLeaseGrantsTwo(s: State, a: Attempt, pid: Pid, now: Time, fallback: string, claimerLive: bool)
    requires Inv(s) && a in s.attempts && ClaimCurrent(s, a)
    requires var r := s.records[a.id]; r.current && r.delivery.status == Sending && Addressed(r.delivery, fallback)
    requires a.number < MAX_ATTEMPTS
    ensures var r := s.records[a.id];
            ClaimedOf(r, now, pid, fallback, claimerLive).1 <==> a.lease <= now || !claimerLive
  {
    hide Log;
    hide RecordInv;
    assert AttemptOk(s, a);
  }

  predicate IsDelivered(s: State, id: Id) {
    id in s.records && s.records[id].delivery.status == Delivered
  }

  /** And with two outstanding attempts `delivered` is not final: the success of one is lost to
      the failure of the other. */
  lemma SecondAttemptLosesDelivered(s: State, a: Attempt, b: Attempt, now: Time, permanent: bool)
    requires Inv(s) && a in s.attempts && b in s.attempts && a.id == b.id
    requires a.phase == SendSucceeded && b.phase == SendRaised && now <= s.clock
    ensures Enabled(s, RecordSuccess(a, now))
    ensures var s1 := Next(s, RecordSuccess(a, now));
            && IsDelivered(s1, a.id)
            && Enabled(s1, RecordFailure(b, now, permanent))
            && a.id in Next(s1, RecordFailure(b, now, permanent)).records
            && !IsDelivered(Next(s1, RecordFailure(b, now, permanent)), a.id)
  {
    hide Log;
    hide Backoff;
    hide RecordInv;
    assert AttemptOk(s, a);
  }
}
