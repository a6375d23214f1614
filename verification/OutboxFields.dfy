/** What each write leaves in a record, field by field, and exactly when a send attempt is granted. */
module OutboxFields {
  import opened Prelude
  import opened OutboxRecord
  import opened OutboxRecordProofs

  /** A history keeps its latest nineteen entries, in order, and gains the new one at the end. */
  lemma LogMeans<S>(history: seq<Entry<S>>, status: S, now: Time)
    ensures var h, kept := Log(history, status, now), if |history| < 20 then |history| else 19;
            |h| == kept + 1 && h[kept] == Entry(status, now) && h[..kept] == history[|history| - kept..]
  {
    var h := history + [Entry(status, now)];
    assert |history| >= 20 ==> h[|h| - 20..][..19] == history[|history| - 19..];
  }

  // ---- The new record ------------------------------------------------------------

  /** Every field of the record that a preparation writes, in terms of its arguments. The ambient provenance
      applies unless the request came from an interaction. */
  lemma NewRecordMeans(id: Id, now: Time, request: Request, ownership: Option<Ownership>, ambient: Option<Provenance>, fallback: string)
    requires ownership != Some(InterruptedTurnCompletion)
    ensures NewRecord(id, now, request, ownership, ambient, fallback).Some?
    ensures var r := NewRecord(id, now, request, ownership, ambient, fallback).value;
            var applies := ambient.Some? && ownership != Some(EphemeralInteraction);
            var delegated := ownership.None? && ambient.Some? && ambient.value.delegated;
            && r.id == id && r.current
            && r.restart.request == request && r.restart.status == Prepared
            && r.restart.history == [Entry(Prepared, now)] && r.restart.supervisorPid.None? && r.restart.evidence.None?
            && r.source == (if applies then ambient.value.source else "")
            && r.replay.turn == (if applies then ambient.value.turn else "")
            && r.replay.sources == (if r.source != "" then [r.source] else [])
            && (r.replay.status == ReplayPending <==> r.replay.turn != "" && r.source != "")
            && (r.replay.status == ReplayNotApplicable <==> r.replay.turn == "" || r.source == "")
            && r.replay.claimedBy.None? && r.replay.attemptCount == 0
            && r.delivery.ownership == (if ownership.Some? then ownership.value else if delegated then DetachedCompletion else RestartTerminal)
            && r.delivery.status == (if r.delivery.ownership == RestartTerminal then Ineligible else Suppressed)
            && r.delivery.history == [Entry(r.delivery.status, now)]
            && r.delivery.reply == (if applies then Some(ReplyTarget(ambient.value.conversation, ambient.value.replyTo)) else None)
            && r.delivery.fallback == (if !applies && r.delivery.ownership == RestartTerminal then fallback else "")
            && r.delivery.attemptCount == 0 && r.delivery.attemptId.None?
            && r.delivery.claimer.None? && r.delivery.claimExpires.None? && r.delivery.nextAttempt.None?
  {
  }

  /** Exactly when an existing record is reused for a request: it came from the same interrupted message, and,
      where the request names a revision, from a request for that revision and runtime source. */
  lemma ReusedExactlyWhen(r: Record, id: Id, now: Time, request: Request, ownership: Option<Ownership>,
                          ambient: Option<Provenance>, fallback: string)
    requires ownership != Some(InterruptedTurnCompletion)
    ensures NewRecord(id, now, request, ownership, ambient, fallback).Some?
    ensures var source := if ambient.Some? && ownership != Some(EphemeralInteraction) then ambient.value.source else "";
            var seen := r.restart.request;
            SameTransaction(r, NewRecord(id, now, request, ownership, ambient, fallback).value) <==>
              && r.source == source
              && (request.revision != "" ==> (seen.revision, seen.runtimeSource) == (request.revision, request.runtimeSource))
  {
  }

  // ---- Marks and reconciliation ------------------------------------------------------

  /** The restart moved to `status` at `now`, and nothing else of the record changed. */
  predicate Moved(r: Record, r': Record, status: RestartStatus, pid: Option<Pid>, evidence: Option<Identity>, now: Time) {
    && r'.(restart := r.restart, delivery := r.delivery) == r
    && r'.restart.request == r.restart.request
    && r'.restart.status == status && r'.restart.supervisorPid == pid && r'.restart.evidence == evidence
    && r'.restart.history == Log(r.restart.history, status, now)
  }

  /** The delivery moved to `status` at `now`, and nothing else of it changed. */
  predicate DeliveryMoved(d: Delivery, d': Delivery, status: DeliveryStatus, now: Time) {
    d'.(status := d.status, history := d.history) == d && d'.status == status && d'.history == Log(d.history, status, now)
  }

  /** A delivery that waited for the restart is pending afterwards; any other is as it was. */
  predicate DeliveryReleased(d: Delivery, d': Delivery, now: Time) {
    if d.status == Ineligible then DeliveryMoved(d, d', Pending, now) else d' == d
  }

  /** What each mark does, by the status it finds. */
  lemma MarksMean(r: Record, pid: Pid, supervisor: Option<Pid>, evidence: Option<Identity>, now: Time)
    ensures var r' := SupervisorStartedOf(r, pid, now);
            if r.restart.status.Prepared? then Moved(r, r', SupervisorStarted, Some(pid), r.restart.evidence, now) && r'.delivery == r.delivery
            else r' == r
    ensures var r' := RestartingOf(r, supervisor, now);
            if r.restart.status.Prepared? || r.restart.status.SupervisorStarted? then
              && Moved(r, r', Restarting, if supervisor.Some? then supervisor else r.restart.supervisorPid, r.restart.evidence, now)
              && r'.delivery == r.delivery
            else r' == r
    ensures var r' := SucceededOf(r, evidence, now);
            if r.restart.status.RestartSucceeded? then r' == r
            else Moved(r, r', RestartSucceeded, r.restart.supervisorPid, evidence, now) && DeliveryReleased(r.delivery, r'.delivery, now)
    ensures var r' := FailedOf(r, now);
            if r.restart.status.RestartSucceeded? || r.restart.status.RestartFailed? then r' == r
            else Moved(r, r', RestartFailed, r.restart.supervisorPid, None, now) && DeliveryReleased(r.delivery, r'.delivery, now)
  {
    hide Log;
  }

  /** What reconciliation does to one record, by what it finds: only an active restart; succeeded if both
      identities can be read and differ; left alone under a live supervisor; failed otherwise, and then
      a current record is to be delivered whatever its delivery was. */
  lemma ReconciliationMeans(r: Record, current: Option<Identity>, live: bool, now: Time)
    ensures var r' := ReconciledOf(r, current, live, now);
            var active := r.restart.status.Prepared? || r.restart.status.SupervisorStarted? || r.restart.status.Restarting?;
            var old_ := r.restart.request.oldIdentity;
            var readable := Readable(old_) && Readable(current);
            if !active then r' == r
            else if readable && (old_.value.backend, ProcessId(old_.value)) != (current.value.backend, ProcessId(current.value)) then
              Moved(r, r', RestartSucceeded, r.restart.supervisorPid, current, now) && DeliveryReleased(r.delivery, r'.delivery, now)
            else if r.restart.supervisorPid.Some? && r.restart.supervisorPid.value > 0 && live then r' == r
            else
              && Moved(r, r', RestartFailed, r.restart.supervisorPid, None, now)
              && DeliveryMoved(r.delivery, r'.delivery, if r.current then Pending else Suppressed, now)
  {
    hide Log;
  }

  function ProcessId(v: Identity): Pid {
    if v.backend == "systemd" then v.mainPid else v.panePid
  }

  /** A backend that is known, and a process id that is one. */
  predicate Readable(v: Option<Identity>) {
    v.Some? && v.value.backend in {"systemd", "tmux"} && ProcessId(v.value) > 0
  }

  // ---- Claims --------------------------------------------------------------------------

  /** There is somebody to send to. */
  predicate Reachable(d: Delivery, fallback: string) {
    || (d.reply.Some? && |d.reply.value.conversation| >= 8 && d.reply.value.conversation[..8] == "discord:" && d.reply.value.message > 0)
    || !Blank(if d.fallback != "" then d.fallback else fallback)
  }

  /** The record's delivery is open: the restart is over and the delivery not. */
  predicate Open(r: Record) {
    && (r.restart.status.RestartFailed? || r.restart.status.RestartSucceeded?)
    && !r.delivery.status.Delivered? && !r.delivery.status.DeliveryFailed? && !r.delivery.status.Suppressed?
  }

  /** It has to wait: for its retry, or for the process that holds it. */
  predicate MustWait(d: Delivery, now: Time, live: bool) {
    || (d.status.RetryPending? && d.nextAttempt.Some? && d.nextAttempt.value > now)
    || (d.status.Sending? && d.claimExpires.Some? && d.claimExpires.value > now && d.claimer.Some? && d.claimer.value > 0 && live)
  }

  /** Exactly when a send attempt is granted. */
  lemma GrantedExactlyWhen(r: Record, now: Time, pid: Pid, fallback: string, live: bool)
    ensures ClaimedOf(r, now, pid, fallback, live).1 <==>
      Open(r) && r.current && !MustWait(r.delivery, now, live) && Reachable(r.delivery, fallback) && r.delivery.attemptCount < 8
  {
    hide Log;
    hide Blank;
  }

  /** And what the record says afterwards in every case. */
  lemma ClaimMeans(r: Record, now: Time, pid: Pid, fallback: string, live: bool)
    ensures var r' := ClaimedOf(r, now, pid, fallback, live).0;
            var d, d' := r.delivery, r'.delivery;
            && r'.(delivery := d) == r
            && if !Open(r) || (r.current && MustWait(d, now, live)) then r' == r
               else if !r.current then DeliveryMoved(d, d', Suppressed, now)
               else
                 var seen := if d.status.Sending? then d.(history := Log(d.history, Unknown, now)) else d;
                 var addressed := if HasReplyTarget(d) then seen else seen.(fallback := if d.fallback != "" then d.fallback else fallback);
                 if !Reachable(d, fallback) then DeliveryMoved(seen, d', AwaitingTarget, now)
                 else if d.attemptCount >= 8 then DeliveryMoved(addressed, d', DeliveryFailed, now)
                 else
                   DeliveryMoved(addressed.(attemptCount := d.attemptCount + 1, attemptId := Some(AttemptId(r.id, d.attemptCount + 1)),
                                            claimer := Some(pid), claimExpires := Some(now + 60), nextAttempt := None),
                                 d', Sending, now)
  {
    hide Log;
    hide Blank;
  }

  // ---- Outcomes ------------------------------------------------------------------------

  /** The pause after failed attempt `n`. */
  function Pause(n: nat): nat
    requires 1 <= n <= 7
  {
    [30, 60, 120, 240, 480, 960, 1920][n - 1]
  }

  lemma PauseMeans(n: nat)
    requires 1 <= n <= 7
    ensures Backoff(n) == Pause(n)
    ensures Pause(n) == 30 * Pow2(n - 1) <= 3600
  {
    assert Pow2(0) == 1 && Pow2(1) == 2 && Pow2(2) == 4;
    assert Pow2(3) == 8 && Pow2(4) == 16 && Pow2(5) == 32 && Pow2(6) == 64;
  }

  /** What recording an outcome leaves: delivered; or, after a failure that is not permanent and not the
      eighth, a retry after the pause for the record's attempt; or failed. The claim is gone. */
  lemma OutcomesMean(r: Record, now: Time, permanent: bool)
    ensures var cleared := r.delivery.(claimer := None, claimExpires := None, nextAttempt := None);
            var r' := DeliveredOf(r, now);
            r'.(delivery := r.delivery) == r && DeliveryMoved(cleared, r'.delivery, Delivered, now)
    ensures var cleared := r.delivery.(claimer := None, claimExpires := None, nextAttempt := None);
            var r' := FailureOf(r, now, permanent);
            var n := if r.delivery.attemptCount >= 1 then r.delivery.attemptCount else 1;
            && r'.(delivery := r.delivery) == r
            && if !permanent && n < 8
               then DeliveryMoved(cleared.(nextAttempt := Some(now + Pause(n))), r'.delivery, RetryPending, now)
               else DeliveryMoved(cleared, r'.delivery, DeliveryFailed, now)
  {
    hide Log;
    hide Backoff;
    var n := if r.delivery.attemptCount >= 1 then r.delivery.attemptCount else 1;
    if n < 8 { PauseMeans(n); }
  }

  // ---- Replay ----------------------------------------------------------------------------

  /** Exactly when an interrupted turn is given, and what claiming and finishing leave. */
  lemma ReplayMeans(r: Record, claimant: string, outcome: ReplayStatus, ownsDelivery: bool, now: Time)
    requires outcome in {ReplayComplete, ReplayPending, ReplaySkipped}
    ensures var (r', given) := ReplayClaimedOf(r, claimant);
            var p := r.replay;
            var due := r.restart.status.RestartSucceeded?
                       && (p.status.ReplayPending? || (p.status.ReplayClaimed? && p.claimedBy != Some(claimant)));
            var whole := p.turn != "" && exists i :: 0 <= i < |p.sources| && p.sources[i] != "";
            && (given <==> due && whole)
            && r'.(replay := p) == r
            && r'.replay == (if given then p.(status := ReplayClaimed, claimedBy := Some(claimant), attemptCount := p.attemptCount + 1)
                             else if due then p.(status := ReplayNotApplicable) else p)
    ensures var r' := ReplayFinishedOf(r, outcome, ownsDelivery, now);
            && r'.restart == r.restart && r'.replay == r.replay.(status := outcome, claimedBy := None)
            && r'.(replay := r.replay, delivery := r.delivery) == r
            && if ownsDelivery && !r.delivery.status.Delivered? && !r.delivery.status.DeliveryFailed? && !r.delivery.status.Suppressed?
               then DeliveryMoved(r.delivery.(ownership := InterruptedTurnCompletion), r'.delivery, Suppressed, now)
               else r'.delivery == r.delivery
  {
    hide Log;
  }
}
