/** `agentbox/reset_notifications.py`: one restart transaction record and what each locked
    read-modify-write does to it. A record couples three machines: the restart status, the
    delivery with its leases and retry budget, and the replay of the interrupted turn. */
module OutboxRecord {
  import opened Prelude

  type Id = string
  type Pid = int
  type Time = int  // seconds

  const MAX_ATTEMPTS := 8
  const CLAIM_LEASE_SECONDS := 60
  const RETRY_BASE_SECONDS := 30
  const RETRY_MAX_SECONDS := 3600
  const HISTORY_LIMIT := 20

  datatype RestartStatus = Prepared | SupervisorStarted | Restarting | RestartFailed | RestartSucceeded

  /** The order in which a restart status can only climb. */
  function Rank(s: RestartStatus): nat {
    match s
    case Prepared => 0
    case SupervisorStarted => 1
    case Restarting => 2
    case RestartFailed => 3
    case RestartSucceeded => 4
  }

  /** `_ACTIVE_RESTART_STATES` */
  predicate Active(s: RestartStatus) {
    s in {Prepared, SupervisorStarted, Restarting}
  }

  /** `Unknown` is only ever written to a history. */
  datatype DeliveryStatus =
    | Ineligible | Suppressed | Pending | AwaitingTarget | Sending | RetryPending | Delivered | DeliveryFailed | Unknown

  /** `_TERMINAL_DELIVERY_STATES` */
  predicate Terminal(s: DeliveryStatus) {
    s in {Delivered, DeliveryFailed, Suppressed}
  }

  datatype Entry<S> = Entry(status: S, at: Time)

  /** `history.append(...)` followed by `history[-20:]` */
  function Log<S>(history: seq<Entry<S>>, status: S, now: Time): (h: seq<Entry<S>>)
    ensures 1 <= |h| <= HISTORY_LIMIT && h[|h| - 1].status == status
  {
    var h := history + [Entry(status, now)];
    if |h| > HISTORY_LIMIT then h[|h| - HISTORY_LIMIT..] else h
  }

  /** The process identity projections of `services.py`: a systemd main pid or a tmux pane pid. */
  datatype Identity = Identity(backend: string, mainPid: int, panePid: int)

  /** `_identity_key` */
  function IdentityKey(v: Option<Identity>): Option<(string, Pid)> {
    if v.None? then None
    else if v.value.backend == "systemd" then
      if v.value.mainPid > 0 then Some(("systemd", v.value.mainPid)) else None
    else if v.value.backend == "tmux" then
      if v.value.panePid > 0 then Some(("tmux", v.value.panePid)) else None
    else None
  }

  /** `_identity_changed` */
  predicate IdentityChanged(old_: Option<Identity>, current: Option<Identity>) {
    IdentityKey(old_).Some? && IdentityKey(current).Some? && IdentityKey(old_) != IdentityKey(current)
  }

  datatype Request = Request(backend: string, oldIdentity: Option<Identity>, revision: string, runtimeSource: string)

  datatype Restart = Restart(
    status: RestartStatus, history: seq<Entry<RestartStatus>>, request: Request,
    supervisorPid: Option<Pid>, evidence: Option<Identity>)

  datatype Ownership = RestartTerminal | EphemeralInteraction | DetachedCompletion | InterruptedTurnCompletion

  datatype ReplyTarget = ReplyTarget(conversation: string, message: int)

  datatype AttemptId = AttemptId(notification: Id, number: nat)

  datatype Delivery = Delivery(
    status: DeliveryStatus, ownership: Ownership, attemptCount: nat, attemptId: Option<AttemptId>,
    claimer: Option<Pid>, claimExpires: Option<Time>, nextAttempt: Option<Time>,
    reply: Option<ReplyTarget>, fallback: string, history: seq<Entry<DeliveryStatus>>)

  datatype ReplayStatus = ReplayNotApplicable | ReplayPending | ReplayClaimed | ReplayComplete | ReplaySkipped

  datatype Replay = Replay(
    status: ReplayStatus, turn: string, sources: seq<string>, claimedBy: Option<string>, attemptCount: nat)

  /** `current` says that the record carries the single-terminal contract; older records do not. */
  datatype Record = Record(
    id: Id, current: bool, source: string, restart: Restart, delivery: Delivery, replay: Replay)

  // ---- prepare_reset_notification: the record it writes -------------------

  datatype Provenance = Provenance(delegated: bool, source: string, turn: string, conversation: string, replyTo: int)

  /** Lines 113-207. Ambient provenance is ignored for an interaction; a delegated request leaves
      delivery to its own completion; anything but the three callers' ownerships is refused. */
  function NewRecord(id: Id, now: Time, request: Request, ownership: Option<Ownership>,
                     ambient: Option<Provenance>, fallback: string): Option<Record>
  {
    var provenance := if ownership == Some(EphemeralInteraction) then None else ambient;
    var owner := if ownership.Some? then ownership.value
                 else if provenance.Some? && provenance.value.delegated then DetachedCompletion
                 else RestartTerminal;
    if owner == InterruptedTurnCompletion then None
    else
      var status := if owner == RestartTerminal then Ineligible else Suppressed;
      var source := if provenance.Some? then provenance.value.source else "";
      var turn := if provenance.Some? then provenance.value.turn else "";
      Some(Record(
             id, true, source,
             Restart(Prepared, [Entry(Prepared, now)], request, None, None),
             Delivery(status, owner, 0, None, None, None, None,
                      if provenance.Some? then Some(ReplyTarget(provenance.value.conversation, provenance.value.replyTo)) else None,
                      if provenance.None? && owner == RestartTerminal then fallback else "",
                      [Entry(status, now)]),
             Replay(if turn != "" && source != "" then ReplayPending else ReplayNotApplicable, turn,
                    if source != "" then [source] else [], None, 0)))
  }

  /** `_restart_record_for_source`: does `r` already consume the new request? */
  predicate SameTransaction(r: Record, candidate: Record) {
    && r.source == candidate.source
    && (candidate.restart.request.revision == "" ||
        (r.restart.request.revision == candidate.restart.request.revision
         && r.restart.request.runtimeSource == candidate.restart.request.runtimeSource))
  }

  // ---- The restart machine -------------------------------------------------

  function SetRestart(r: Record, status: RestartStatus, now: Time): Record {
    r.(restart := r.restart.(status := status, history := Log(r.restart.history, status, now)))
  }

  function SetDelivery(r: Record, status: DeliveryStatus, now: Time): Record {
    r.(delivery := r.delivery.(status := status, history := Log(r.delivery.history, status, now)))
  }

  /** `delivery.status == "prepared"` becomes deliverable. */
  function Release(r: Record, now: Time): Record {
    if r.delivery.status == Ineligible then SetDelivery(r, Pending, now) else r
  }

  /** `mark_reset_supervisor_started` */
  function SupervisorStartedOf(r: Record, pid: Pid, now: Time): Record {
    if r.restart.status == Prepared then
      var r' := SetRestart(r, SupervisorStarted, now);
      r'.(restart := r'.restart.(supervisorPid := Some(pid)))
    else r
  }

  /** `mark_reset_restarting` */
  function RestartingOf(r: Record, pid: Option<Pid>, now: Time): Record {
    if r.restart.status in {Prepared, SupervisorStarted} then
      var r' := SetRestart(r, Restarting, now);
      if pid.Some? then r'.(restart := r'.restart.(supervisorPid := pid)) else r'
    else r
  }

  /** `mark_reset_succeeded`: upgrades even a failed restart; a record that has already
      succeeded is returned unwritten. */
  function SucceededOf(r: Record, evidence: Option<Identity>, now: Time): Record {
    if r.restart.status == RestartSucceeded then r
    else
      var r' := SetRestart(Release(r, now), RestartSucceeded, now);
      r'.(restart := r'.restart.(evidence := evidence))
  }

  /** `mark_reset_failed` */
  function FailedOf(r: Record, now: Time): Record {
    if r.restart.status in {RestartSucceeded, RestartFailed} then r
    else
      var r' := SetRestart(Release(r, now), RestartFailed, now);
      r'.(restart := r'.restart.(evidence := None))
  }

  /** One record of `reconcile_prepared_reset_notifications`. A reconciled failure makes the
      delivery pending whatever it was, even suppressed. */
  function ReconciledOf(r: Record, current: Option<Identity>, supervisorLive: bool, now: Time): Record {
    if !Active(r.restart.status) then r
    else if IdentityChanged(r.restart.request.oldIdentity, current) then
      var r' := SetRestart(Release(r, now), RestartSucceeded, now);
      r'.(restart := r'.restart.(evidence := current))
    else if r.restart.supervisorPid.Some? && r.restart.supervisorPid.value > 0 && supervisorLive then r
    else
      var r' := SetRestart(SetDelivery(r, if r.current then Pending else Suppressed, now), RestartFailed, now);
      r'.(restart := r'.restart.(evidence := None))
  }

  // ---- The delivery machine --------------------------------------------------

  /** `_target_from_delivery` finds a usable reply target. */
  predicate HasReplyTarget(d: Delivery) {
    d.reply.Some? && |d.reply.value.conversation| >= 8 && d.reply.value.conversation[..8] == "discord:"
    && d.reply.value.message > 0
  }

  /** An unexpired lease of a live claimer. */
  predicate LeaseHeld(d: Delivery, now: Time, claimerLive: bool) {
    && d.claimExpires.Some? && d.claimExpires.value > now
    && d.claimer.Some? && d.claimer.value > 0 && claimerLive
  }

  /** `_claim_delivery`: the record it writes, and whether it grants a send attempt. */
  function ClaimedOf(r: Record, now: Time, pid: Pid, fallback: string, claimerLive: bool): (Record, bool) {
    var d := r.delivery;
    if Active(r.restart.status) then (r, false)
    else if !r.current && !Terminal(d.status) then (SetDelivery(r, Suppressed, now), false)
    else if Terminal(d.status) then (r, false)
    else if d.status == RetryPending && d.nextAttempt.Some? && d.nextAttempt.value > now then (r, false)
    else if d.status == Sending && LeaseHeld(d, now, claimerLive) then (r, false)
    else
      var d1 := if d.status == Sending then d.(history := Log(d.history, Unknown, now)) else d;
      var candidate := if d1.fallback != "" then d1.fallback else fallback;
      if !HasReplyTarget(d1) && Blank(candidate) then
        (SetDelivery(r.(delivery := d1), AwaitingTarget, now), false)
      else
        var d2 := if HasReplyTarget(d1) then d1 else d1.(fallback := candidate);
        if d2.attemptCount + 1 > MAX_ATTEMPTS then
          (SetDelivery(r.(delivery := d2), DeliveryFailed, now), false)
        else
          var n := d2.attemptCount + 1;
          (SetDelivery(r.(delivery := d2.(attemptCount := n, attemptId := Some(AttemptId(r.id, n)), claimer := Some(pid),
                                          claimExpires := Some(now + CLAIM_LEASE_SECONDS), nextAttempt := None)),
                       Sending, now), true)
  }

  function ClearClaim(d: Delivery): Delivery {
    d.(claimer := None, claimExpires := None, nextAttempt := None)
  }

  /** `_record_delivery_success` */
  function DeliveredOf(r: Record, now: Time): Record {
    var r' := SetDelivery(r, Delivered, now);
    r'.(delivery := ClearClaim(r'.delivery))
  }

  function Pow2(n: nat): nat {
    if n == 0 then 1 else 2 * Pow2(n - 1)
  }

  /** The backoff after failed attempt `attempt` */
  function Backoff(attempt: nat): nat
    requires attempt >= 1
  {
    var delay := RETRY_BASE_SECONDS * Pow2(if attempt - 1 < 7 then attempt - 1 else 7);
    if delay < RETRY_MAX_SECONDS then delay else RETRY_MAX_SECONDS
  }

  /** `max(1, int(delivery.get("attempt_count") or 1))` */
  function CurrentAttempt(d: Delivery): nat {
    if d.attemptCount >= 1 then d.attemptCount else 1
  }

  /** Does a recorded failure schedule another attempt? */
  predicate Retries(r: Record, permanent: bool) {
    !permanent && CurrentAttempt(r.delivery) < MAX_ATTEMPTS
  }

  /** `_record_delivery_failure`, with the error already classified. It reads the attempt count
      of the record, not the attempt it belongs to. */
  function FailureOf(r: Record, now: Time, permanent: bool): Record {
    var retry := Retries(r, permanent);
    var r' := SetDelivery(r, if retry then RetryPending else DeliveryFailed, now);
    var cleared := ClearClaim(r'.delivery);
    r'.(delivery := if retry then cleared.(nextAttempt := Some(now + Backoff(CurrentAttempt(r.delivery)))) else cleared)
  }

  // ---- Interrupted-turn replay -------------------------------------------------

  /** One record of `claim_restart_interrupted_turns`, and whether it yields a claim. */
  function ReplayClaimedOf(r: Record, claimant: string): (Record, bool) {
    var p := r.replay;
    if r.restart.status != RestartSucceeded then (r, false)
    else if p.status in {ReplayComplete, ReplaySkipped, ReplayNotApplicable} then (r, false)
    else if p.status == ReplayClaimed && p.claimedBy == Some(claimant) then (r, false)
    else if p.turn == "" || !(exists i :: 0 <= i < |p.sources| && p.sources[i] != "") then
      (r.(replay := p.(status := ReplayNotApplicable)), false)
    else
      (r.(replay := p.(status := ReplayClaimed, claimedBy := Some(claimant), attemptCount := p.attemptCount + 1)), true)
  }

  /** `finish_restart_interrupted_turn` */
  function ReplayFinishedOf(r: Record, status: ReplayStatus, ownsDelivery: bool, now: Time): Record
    requires status in {ReplayComplete, ReplayPending, ReplaySkipped}
  {
    var r' := r.(replay := r.replay.(status := status, claimedBy := None));
    if ownsDelivery && !Terminal(r.delivery.status) then
      SetDelivery(r'.(delivery := r'.delivery.(ownership := InterruptedTurnCompletion)), Suppressed, now)
    else r'
  }

  // ---- What every write keeps ---------------------------------------------------

  /** Both histories are non-empty, bounded and end with the current status; a delivery that has
      left the restart's custody belongs to a finished restart; attempts stay within the budget. */
  ghost predicate RecordInv(r: Record) {
    && 1 <= |r.restart.history| <= HISTORY_LIMIT
    && r.restart.history[|r.restart.history| - 1].status == r.restart.status
    && 1 <= |r.delivery.history| <= HISTORY_LIMIT
    && r.delivery.history[|r.delivery.history| - 1].status == r.delivery.status
    && r.delivery.attemptCount <= MAX_ATTEMPTS
    && (Active(r.restart.status) ==> r.delivery.status in {Ineligible, Suppressed} && r.delivery.attemptCount == 0)
    && (r.restart.status != RestartSucceeded ==> r.replay.status != ReplayClaimed)
  }

  /** What no write may change or lower. */
  ghost predicate Evolves(r: Record, r': Record) {
    && r'.id == r.id && r'.source == r.source && r'.current == r.current
    && r'.restart.request == r.restart.request
    && Rank(r.restart.status) <= Rank(r'.restart.status)
    && r.delivery.attemptCount <= r'.delivery.attemptCount <= r.delivery.attemptCount + 1
  }

  ghost predicate GoodStep(r: Record, r': Record) {
    Evolves(r, r') && (RecordInv(r) ==> RecordInv(r'))
  }
}
