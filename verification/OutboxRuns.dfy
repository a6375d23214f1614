/** Schedules that start from an unused outbox and reach the failures that the safety theorems exclude:
    none of their provisos is about a state that cannot happen. */
module OutboxRuns {
  import opened Prelude
  import opened OutboxRecord
  import opened OutboxRecordProofs
  import opened OutboxSystem
  import opened OutboxProofs
  import opened OutboxLease
  import opened OutboxFinality

  function Last(run: Schedule): State
    requires run.states != []
  {
    run.states[|run.states| - 1]
  }

  /** One step more. */
  function Then(run: Schedule, step: Step): Schedule
    requires run.states != [] && Enabled(Last(run), step)
  {
    Schedule(run.states + [Next(Last(run), step)], run.steps + [step])
  }

  lemma ThenIsSchedule(run: Schedule, step: Step)
    requires IsSchedule(run) && Enabled(Last(run), step)
    ensures IsSchedule(Then(run, step)) && Last(Then(run, step)) == Next(Last(run), step)
    ensures Then(run, step).states[0] == run.states[0]
  {
    hide Next;
    hide Enabled;
  }

  const REQUEST := Request("systemd", None, "", "")

  /** A restart asked for on the command line. */
  function Fresh(id: Id): Record {
    NewRecord(id, 0, REQUEST, None, None, "c").value
  }

  function Asked(id: Id): Step {
    BeginPrepare(id, REQUEST, None, None, "c", 0)
  }

  /** Preparing the first restart of an unused outbox. */
  lemma FirstPrepare(s: State) returns (run: Schedule)
    requires Init(s)
    ensures IsSchedule(run) && run.states[0] == s && |run.steps| == 2
    ensures Last(run) == s.(records := map["a" := Fresh("a")])
    ensures forall j :: 0 <= j < |run.states| ==> run.states[j].attempts == {}
    ensures forall j :: 0 <= j < |run.steps| ==> !run.steps[j].Claim?
  {
    hide NewRecord;
    FreshIsMade("a");
    run := Schedule([s], []);
    ThenIsSchedule(run, Asked("a"));
    run := Then(run, Asked("a"));
    assert s.records.Keys == {};
    ThenIsSchedule(run, CommitPrepare);
    run := Then(run, CommitPrepare);
  }

  lemma FreshIsMade(id: Id)
    ensures NewRecord(id, 0, REQUEST, None, None, "c") == Some(Fresh(id))
    ensures Fresh(id).id == id && Fresh(id).source == "" && Fresh(id).current
    ensures Fresh(id).restart.status == Prepared
    ensures Fresh(id).delivery.status == Ineligible && Fresh(id).delivery.attemptCount == 0 && Fresh(id).delivery.fallback == "c"
  {
  }

  /** Two restarts are active: the second request's scan could not read the first record. */
  lemma TwoActiveReached(s: State) returns (run: Schedule)
    requires Init(s)
    ensures IsSchedule(run) && run.states[0] == s && !OneActive(Last(run))
    ensures run.steps == [Asked("a"), CommitPrepare, Asked("b"), SkipUnreadable("a"), CommitPrepare]
  {
    hide NewRecord;
    FreshIsMade("a");
    FreshIsMade("b");
    run := Schedule([s], []);
    ThenIsSchedule(run, Asked("a"));
    run := Then(run, Asked("a"));
    ThenIsSchedule(run, CommitPrepare);
    run := Then(run, CommitPrepare);
    assert Last(run).records == map["a" := Fresh("a")];
    assert "b" != "a" by { assert "b"[0] == 'b'; }
    ThenIsSchedule(run, Asked("b"));
    run := Then(run, Asked("b"));
    InitInv(s);
    ScheduleInv(run, |run.states| - 1);
    BlindSkipBreaksExclusivity(Last(run), "a");
    ThenIsSchedule(run, SkipUnreadable("a"));
    run := Then(run, SkipUnreadable("a"));
    ThenIsSchedule(run, CommitPrepare);
    run := Then(run, CommitPrepare);
  }

  /** A restart asked for by one message. */
  function AskedFrom(id: Id): Step {
    BeginPrepare(id, REQUEST, None, Some(Provenance(false, "s", "", "", 0)), "", 0)
  }

  function FreshFrom(id: Id): Record {
    NewRecord(id, 0, REQUEST, None, Some(Provenance(false, "s", "", "", 0)), "").value
  }

  lemma FreshFromIsMade(id: Id)
    ensures NewRecord(id, 0, REQUEST, None, Some(Provenance(false, "s", "", "", 0)), "") == Some(FreshFrom(id))
    ensures FreshFrom(id).id == id && FreshFrom(id).source == "s" && FreshFrom(id).restart.request == REQUEST
    ensures FreshFrom(id).restart.status == Prepared
  {
  }

  /** The first message has been served, in vain. */
  lemma FailedOnce(s: State) returns (run: Schedule, r: Record)
    requires Init(s)
    ensures IsSchedule(run) && run.states[0] == s && Last(run).records == map["a" := r] && Last(run).root == None
    ensures run.steps == [AskedFrom("a"), NextScan, CommitPrepare, MarkFailed("a", 0)]
    ensures r.id == "a" && r.source == "s" && r.restart.request == REQUEST && r.restart.status == RestartFailed
  {
    hide FailedOf;
    run := AskedOnce(s);
    FreshFromIsMade("a");
    r := FailedOf(FreshFrom("a"), 0);
    Failing(FreshFrom("a"));
    hide NewRecord;
    ThenIsSchedule(run, MarkFailed("a", 0));
    run := Then(run, MarkFailed("a", 0));
  }

  lemma Failing(r: Record)
    requires r.restart.status == Prepared
    ensures var r' := FailedOf(r, 0);
            r'.id == r.id && r'.source == r.source && r'.restart.request == r.restart.request && r'.restart.status == RestartFailed
  {
    hide Log;
  }

  lemma AskedOnce(s: State) returns (run: Schedule)
    requires Init(s)
    ensures IsSchedule(run) && run.states[0] == s && Last(run).records == map["a" := FreshFrom("a")] && Last(run).root == None
    ensures run.steps == [AskedFrom("a"), NextScan, CommitPrepare]
  {
    hide NewRecord;
    FreshFromIsMade("a");
    assert s.records.Keys == {};
    run := Schedule([s], []);
    ThenIsSchedule(run, AskedFrom("a"));
    run := Then(run, AskedFrom("a"));
    ThenIsSchedule(run, NextScan);
    run := Then(run, NextScan);
    ThenIsSchedule(run, CommitPrepare);
    run := Then(run, CommitPrepare);
  }

  /** Two records of one source, revision and runtime source: the second request's source scan could not
      read the first record. Only one restart is active, and no other scan skipped anything. */
  lemma TwoOfOneKeyReached(s: State) returns (run: Schedule)
    requires Init(s)
    ensures IsSchedule(run) && run.states[0] == s && OneActive(Last(run)) && !UniqueKeys(Last(run))
    ensures run.steps == [AskedFrom("a"), NextScan, CommitPrepare, MarkFailed("a", 0),
                          AskedFrom("b"), SkipUnreadable("a"), NextScan, ReadRecord("a"), CommitPrepare]
  {
    hide NewRecord;
    hide Inv;
    var r: Record;
    run, r := FailedOnce(s);
    FreshFromIsMade("b");
    assert "b" != "a" by { assert "b"[0] == 'b'; }
    assert Last(run).records.Keys == {"a"};
    ThenIsSchedule(run, AskedFrom("b"));
    run := Then(run, AskedFrom("b"));
    var asked := Last(run);
    assert asked.root == Some(SourceScan(FreshFrom("b"), {"a"})) && asked.records == map["a" := r];
    InitInv(s);
    ScheduleInv(run, |run.states| - 1);
    BlindSkipBreaksUniqueness(asked, "a");
    hide Next;
    hide Enabled;
    ThenIsSchedule(run, SkipUnreadable("a"));
    run := Then(run, SkipUnreadable("a"));
    ThenIsSchedule(run, NextScan);
    run := Then(run, NextScan);
    ThenIsSchedule(run, ReadRecord("a"));
    run := Then(run, ReadRecord("a"));
    ThenIsSchedule(run, CommitPrepare);
    run := Then(run, CommitPrepare);
  }

  // ---- A delivery that is lost --------------------------------------------------------

  /** An unused outbox on a host with two processes. */
  const TWO_PROCESSES := State(map[], None, {1, 2}, {}, 0, [], [], [])

  /** A record that any process may claim: its restart is over and it can be addressed. */
  predicate Claimable(r: Record, now: Time, live: bool) {
    && r.id == "a" && r.current && r.restart.status == RestartSucceeded && r.delivery.fallback == "c" && r.delivery.attemptCount < MAX_ATTEMPTS
    && (r.delivery.status == Pending || (r.delivery.status == Sending && !LeaseHeld(r.delivery, now, live)))
  }

  lemma ClaimIsGranted(r: Record, now: Time, pid: Pid, live: bool)
    requires Claimable(r, now, live)
    ensures var (r', granted) := ClaimedOf(r, now, pid, "", live);
            && granted && r'.id == "a" && r'.current && r'.restart == r.restart && r'.delivery.fallback == "c"
            && r'.delivery.status == Sending && r'.delivery.attemptCount == r.delivery.attemptCount + 1
            && r'.delivery.claimer == Some(pid) && r'.delivery.claimExpires == Some(now + CLAIM_LEASE_SECONDS)
  {
    hide Log;
    assert !Blank("c") by { assert "c"[0] == 'c'; }
  }

  lemma SucceededIsClaimable(r: Record)
    requires r == Fresh("a")
    ensures Claimable(SucceededOf(r, None, 0), 0, true)
    ensures SucceededOf(r, None, 0).delivery.attemptCount == 0
  {
    hide Log;
  }

  function Granted1(): Attempt { Attempt("a", 1, 1, 60, RestartSucceeded, Granted) }

  function Granted2(now: Time): Attempt { Attempt("a", 2, 2, now + 60, RestartSucceeded, Granted) }

  /** One claim of the only record, from any state of the run. */
  lemma Claimed(s: State, r: Record, pid: Pid, now: Time, live: bool) returns (r': Record)
    requires s.records == map["a" := r] && pid in s.live && now <= s.clock && Claimable(r, now, live)
    ensures Enabled(s, Claim("a", pid, now, "", live))
    ensures r' == ClaimedOf(r, now, pid, "", live).0
    ensures var s' := Next(s, Claim("a", pid, now, "", live));
            && s'.records == map["a" := r'] && s'.live == s.live && s'.clock == s.clock && s'.root == s.root
            && s'.attempts == s.attempts + {Attempt("a", r'.delivery.attemptCount, pid, now + 60, RestartSucceeded, Granted)}
    ensures r'.delivery.attemptCount == r.delivery.attemptCount + 1 && r'.id == "a" && r'.current
    ensures r'.restart.status == RestartSucceeded && r'.delivery.fallback == "c" && r'.delivery.status == Sending
    ensures r'.delivery.claimer == Some(pid) && r'.delivery.claimExpires == Some(now + 60)
  {
    hide ClaimedOf;
    ClaimIsGranted(r, now, pid, live);
    r' := ClaimedOf(r, now, pid, "", live).0;
  }

  /** The restart has succeeded. */
  lemma Released() returns (run: Schedule, r: Record)
    ensures IsSchedule(run) && Init(run.states[0]) && Last(run).records == map["a" := r]
    ensures Last(run).live == {1, 2} && Last(run).clock == 0 && Last(run).attempts == {}
    ensures Claimable(r, 0, true) && r.delivery.attemptCount == 0
    ensures AllFair(run) && AllDisciplined(run)
  {
    hide SucceededOf;
    hide NewRecord;
    run := FirstPrepare(TWO_PROCESSES);
    FreshIsMade("a");
    SucceededIsClaimable(Fresh("a"));
    FairSoFar(run);
    r := SucceededOf(Fresh("a"), None, 0);
    ThenFair(run, MarkSucceeded("a", None, 0));
    run := Then(run, MarkSucceeded("a", None, 0));
  }

  /** And process 1 holds the first attempt. */
  lemma FirstAttempt() returns (run: Schedule, r: Record)
    ensures IsSchedule(run) && Init(run.states[0]) && Last(run).records == map["a" := r]
    ensures Last(run).live == {1, 2} && Last(run).clock == 0 && Last(run).attempts == {Granted1()}
    ensures r.id == "a" && r.current && r.restart.status == RestartSucceeded && r.delivery.fallback == "c"
    ensures r.delivery.status == Sending && r.delivery.attemptCount == 1
    ensures r.delivery.claimer == Some(1) && r.delivery.claimExpires == Some(60)
    ensures AllFair(run) && AllDisciplined(run)
  {
    hide Next;
    hide Enabled;
    hide Claimable;
    var released: Record;
    run, released := Released();
    r := Claimed(Last(run), released, 1, 0, true);
    ThenFair(run, Claim("a", 1, 0, "", true));
    run := Then(run, Claim("a", 1, 0, "", true));
  }

  ghost predicate AllFair(run: Schedule)
    requires |run.states| == |run.steps| + 1
  {
    forall j :: 0 <= j < |run.steps| ==> JudgesFairly(run.states[j], run.steps[j])
  }

  ghost predicate AllDisciplined(run: Schedule) {
    forall j :: 0 <= j < |run.states| ==> Disciplined(run.states[j])
  }

  lemma FairSoFar(run: Schedule)
    requires IsSchedule(run)
    requires forall j :: 0 <= j < |run.states| ==> run.states[j].attempts == {}
    requires forall j :: 0 <= j < |run.steps| ==> !run.steps[j].Claim?
    ensures AllFair(run) && AllDisciplined(run)
  {
  }

  lemma ThenFair(run: Schedule, step: Step)
    requires IsSchedule(run) && Enabled(Last(run), step)
    ensures IsSchedule(Then(run, step)) && Last(Then(run, step)) == Next(Last(run), step)
    ensures Then(run, step).states[0] == run.states[0]
    ensures AllFair(run) && JudgesFairly(Last(run), step) ==> AllFair(Then(run, step))
    ensures AllDisciplined(run) && Disciplined(Next(Last(run), step)) ==> AllDisciplined(Then(run, step))
  {
    hide Next;
    hide Enabled;
    hide JudgesFairly;
    hide Disciplined;
    ThenIsSchedule(run, step);
  }

  /** Time passes, or does not. */
  lemma Ticked(lapsed: bool) returns (run: Schedule, r: Record, now: Time)
    ensures now == if lapsed then 60 else 0
    ensures IsSchedule(run) && Init(run.states[0]) && Last(run).records == map["a" := r]
    ensures Last(run).live == {1, 2} && Last(run).clock == now && Last(run).attempts == {Granted1()}
    ensures Claimable(r, now, lapsed) && r.delivery.attemptCount == 1
    ensures AllFair(run) && (!lapsed ==> AllDisciplined(run))
  {
    hide Next;
    hide Enabled;
    run, r := FirstAttempt();
    now := if lapsed then 60 else 0;
    TickOnly(Last(run), now);
    ThenFair(run, Tick(now));
    run := Then(run, Tick(now));
  }

  /** Process 2 holds a second attempt beside it: the lease lapsed, or process 1 was taken for dead. */
  lemma SecondAttempt(lapsed: bool) returns (run: Schedule, now: Time)
    ensures IsSchedule(run) && Init(run.states[0]) && "a" in Last(run).records
    ensures Last(run).clock == now && Last(run).attempts == {Granted1(), Granted2(now)}
    ensures lapsed ==> AllFair(run)
    ensures !lapsed ==> AllDisciplined(run)
  {
    hide Next;
    hide Enabled;
    hide Claimable;
    hide Init;
    var r: Record;
    run, r, now := Ticked(lapsed);
    var r2 := Claimed(Last(run), r, 2, now, lapsed);
    ThenFair(run, Claim("a", 2, now, "", lapsed));
    run := Then(run, Claim("a", 2, now, "", lapsed));
  }

  lemma TickOnly(s: State, now: Time)
    requires s.clock <= now
    ensures Enabled(s, Tick(now)) && Next(s, Tick(now)) == s.(clock := now)
  {
  }

  lemma Sent(s: State, a: Attempt, ok: bool)
    requires a in s.attempts && a.phase == Granted && a.id in s.records
    ensures Enabled(s, Send(a, ok))
    ensures var s' := Next(s, Send(a, ok));
            && s'.attempts == s.attempts - {a} + {a.(phase := if ok then SendSucceeded else SendRaised)}
            && s'.records == s.records && s'.clock == s.clock
  {
  }

  /** And a recorded delivery is lost: both sent, the first successfully, and the failure of the second
      is recorded last. With `lapsed` every claim judged fairly; without it no lease ever lapsed. */
  lemma LostDeliveryReached(lapsed: bool) returns (run: Schedule)
    ensures IsSchedule(run) && Init(run.states[0]) && |run.steps| >= 2
    ensures var n := |run.steps|;
            IsDelivered(run.states[n - 1], "a") && "a" in run.states[n].records && !IsDelivered(run.states[n], "a")
    ensures lapsed ==> AllFair(run)
    ensures !lapsed ==> AllDisciplined(run)
  {
    hide Next;
    hide Enabled;
    hide Inv;
    var now: Time;
    run, now := SecondAttempt(lapsed);
    var a, b := Granted1(), Granted2(now);
    Sent(Last(run), a, true);
    ThenFair(run, Send(a, true));
    run := Then(run, Send(a, true));
    Sent(Last(run), b, false);
    ThenFair(run, Send(b, false));
    run := Then(run, Send(b, false));
    var a', b' := a.(phase := SendSucceeded), b.(phase := SendRaised);
    InitInv(run.states[0]);
    ScheduleInv(run, |run.states| - 1);
    SecondAttemptLosesDelivered(Last(run), a', b', now, false);
    OutcomesKeepAttempts(Last(run), a', b', now);
    ThenFair(run, RecordSuccess(a', now));
    run := Then(run, RecordSuccess(a', now));
    ThenFair(run, RecordFailure(b', now, false));
    run := Then(run, RecordFailure(b', now, false));
  }

  /** Recording outcomes leaves no attempt that was not there. */
  lemma OutcomesKeepAttempts(s: State, a: Attempt, b: Attempt, now: Time)
    requires Enabled(s, RecordSuccess(a, now)) && Enabled(Next(s, RecordSuccess(a, now)), RecordFailure(b, now, false))
    ensures var s1 := Next(s, RecordSuccess(a, now));
            var s2 := Next(s1, RecordFailure(b, now, false));
            s1.attempts <= s.attempts && s1.clock == s.clock && s2.attempts <= s.attempts && s2.clock == s.clock
            && a.id in s1.records && a.id in s2.records
  {
    hide Log;
    hide Backoff;
  }

  // ---- A suppressed delivery that is not ------------------------------------------------

  /** An interaction asked for the restart, so its delivery is suppressed; startup reconciliation finds the
      restart failed and makes the delivery pending. */
  lemma SuppressedReopenedByReconciliation(s: State) returns (run: Schedule)
    requires Init(s)
    ensures IsSchedule(run) && run.states[0] == s
    ensures run.steps == [BeginPrepare("a", REQUEST, Some(EphemeralInteraction), None, "", 0), CommitPrepare, Reconcile("a", None, false, 0)]
    ensures IsSuppressed(run.states[2], "a")
    ensures "a" in run.states[3].records && run.states[3].records["a"].delivery.status == Pending
  {
    hide Log;
    var ask := BeginPrepare("a", REQUEST, Some(EphemeralInteraction), None, "", 0);
    run := Schedule([s], []);
    ThenIsSchedule(run, ask);
    run := Then(run, ask);
    assert s.records.Keys == {};
    ThenIsSchedule(run, CommitPrepare);
    run := Then(run, CommitPrepare);
    ThenIsSchedule(run, Reconcile("a", None, false, 0));
    run := Then(run, Reconcile("a", None, false, 0));
  }

  lemma RecoveredTurnSuppresses(r: Record)
    requires r.delivery.status == Sending
    ensures var r' := ReplayFinishedOf(r, ReplayComplete, true, 0);
            r'.delivery.status == Suppressed && r'.delivery.attemptCount == r.delivery.attemptCount && r'.id == r.id
            && r'.restart == r.restart
  {
    hide Log;
  }

  lemma LateFailureReopens(r: Record)
    requires r.delivery.attemptCount == 1
    ensures var r' := FailureOf(r, 0, false);
            r'.delivery.status == RetryPending && r'.delivery.attemptCount == 1 && r'.id == r.id
  {
    hide Log;
    hide Backoff;
  }

  /** A recovered turn takes a delivery over while an attempt of it is out; that attempt fails, and the
      delivery is to be retried. Every claim is judged fairly and no lease lapses: the discipline does
      not protect it. */
  lemma SuppressedReopenedByLateOutcome() returns (run: Schedule)
    ensures IsSchedule(run) && Init(run.states[0]) && AllFair(run) && AllDisciplined(run)
    ensures |run.states| >= 3 && IsSuppressed(run.states[|run.states| - 2], "a")
    ensures "a" in Last(run).records && Last(run).records["a"].delivery.status == RetryPending
  {
    hide ReplayFinishedOf;
    hide FailureOf;
    var r: Record;
    run, r := FirstAttempt();
    var a := Granted1();
    var finish := FinishReplay("a", ReplayComplete, true, 0);
    RecoveredTurnSuppresses(r);
    ThenFair(run, finish);
    run := Then(run, finish);
    Sent(Last(run), a, false);
    ThenFair(run, Send(a, false));
    run := Then(run, Send(a, false));
    var failed := RecordFailure(a.(phase := SendRaised), 0, false);
    LateFailureReopens(ReplayFinishedOf(r, ReplayComplete, true, 0));
    ThenFair(run, failed);
    run := Then(run, failed);
  }
}
