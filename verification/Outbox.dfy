/** The outbox as the source runs it: read a record, update its parts, write it back. Each method
    is proved against the record function of `OutboxRecord` that the schedules are built from. */
module Outbox {
  import opened Prelude
  import opened OutboxRecord
  import opened OutboxRecordProofs

  datatype Reservation = Reservation(id: Id, reused: bool)

  datatype PrepareError = InvalidOwnership | AlreadyActive

  datatype Tally = Skipped | Waiting | DeliveredNow | RetryingNow | FailedNow

  /** What the provider does with a send: accept it, or raise something permanent or retryable. */
  datatype Reply = Accepted | Rejected(permanent: bool)

  /** One record under one undisturbed sweep. */
  function SweptOf(r: Record, now: Time, pid: Pid, fallback: string, live: Pid -> bool, provider: Id -> Reply): (Record, Tally) {
    var (r', granted) := ClaimedOf(r, now, pid, fallback, r.delivery.claimer.Some? && live(r.delivery.claimer.value));
    if !granted then
      (r', if r'.delivery.status == AwaitingTarget then Waiting
           else if r'.delivery.status == DeliveryFailed then FailedNow else Skipped)
    else
      match provider(r.id)
      case Accepted => (DeliveredOf(r', now), DeliveredNow)
      case Rejected(permanent) =>
        (FailureOf(r', now, permanent), if Retries(r', permanent) then RetryingNow else FailedNow)
  }

  /** What a sweep does to one record, by what it counts the record as. A message is sent exactly after a
      grant: for a finished restart, an open delivery, one attempt more and within the budget. */
  lemma SweptMeans(r: Record, now: Time, pid: Pid, fallback: string, live: Pid -> bool, provider: Id -> Reply)
    ensures var (r', tally) := SweptOf(r, now, pid, fallback, live, provider);
            var sent := ClaimedOf(r, now, pid, fallback, r.delivery.claimer.Some? && live(r.delivery.claimer.value)).1;
            var d := r'.delivery;
            && r'.restart == r.restart && r'.replay == r.replay
            && d.attemptCount == r.delivery.attemptCount + (if sent then 1 else 0)
            && (sent ==> !Active(r.restart.status) && !Terminal(r.delivery.status) && d.attemptCount <= MAX_ATTEMPTS && d.claimer.None?)
            && match tally
               case DeliveredNow => sent && provider(r.id).Accepted? && d.status == Delivered
               case RetryingNow =>
                 && sent && provider(r.id) == Rejected(false) && d.status == RetryPending
                 && d.attemptCount < MAX_ATTEMPTS && d.nextAttempt == Some(now + Backoff(d.attemptCount))
               case FailedNow =>
                 && d.status == DeliveryFailed
                 && (sent ==> provider(r.id) == Rejected(true) || (provider(r.id).Rejected? && d.attemptCount == MAX_ATTEMPTS))
               case Waiting => !sent && d.status == AwaitingTarget
               case Skipped => !sent && d.status !in {AwaitingTarget, DeliveryFailed}
  {
    hide Log;
    hide ClaimedOf;
    hide Pow2;
    ClaimGrants(r, now, pid, fallback, r.delivery.claimer.Some? && live(r.delivery.claimer.value));
  }

  lemma SweptKeepsId(r: Record, now: Time, pid: Pid, fallback: string, live: Pid -> bool, provider: Id -> Reply)
    ensures SweptOf(r, now, pid, fallback, live, provider).0.id == r.id
  {
    hide Log;
    hide Backoff;
  }

  datatype SweepResult = SweepResult(scanned: nat, delivered: nat, retryPending: nat, failed: nat, waiting: nat, skipped: nat)

  function Count(result: SweepResult, t: Tally): nat {
    match t
    case Skipped => result.skipped
    case Waiting => result.waiting
    case DeliveredNow => result.delivered
    case RetryingNow => result.retryPending
    case FailedNow => result.failed
  }

  function Bump(result: SweepResult, t: Tally): SweepResult {
    match t
    case Skipped => result.(skipped := result.skipped + 1)
    case Waiting => result.(waiting := result.waiting + 1)
    case DeliveredNow => result.(delivered := result.delivered + 1)
    case RetryingNow => result.(retryPending := result.retryPending + 1)
    case FailedNow => result.(failed := result.failed + 1)
  }

  function Total(result: SweepResult): nat {
    result.delivered + result.retryPending + result.failed + result.waiting + result.skipped
  }

  lemma BumpCounts(result: SweepResult, tally: Tally)
    ensures Total(Bump(result, tally)) == Total(result) + 1
    ensures Bump(result, tally).scanned == result.scanned
    ensures forall t :: Count(Bump(result, tally), t) == Count(result, t) + if t == tally then 1 else 0
  {
  }

  /** How reconciliation leaves one record. */
  datatype Outcome = Untouched | Won | Lost | StillRunning

  function OutcomeOf(r: Record, current: Option<Identity>, live: Pid -> bool): Outcome {
    if !Active(r.restart.status) then Untouched
    else if IdentityChanged(r.restart.request.oldIdentity, current) then Won
    else if r.restart.supervisorPid.Some? && r.restart.supervisorPid.value > 0 && live(r.restart.supervisorPid.value) then StillRunning
    else Lost
  }

  function Reconciled(r: Record, current: Option<Identity>, live: Pid -> bool, now: Time): Record {
    ReconciledOf(r, current, r.restart.supervisorPid.Some? && live(r.restart.supervisorPid.value), now)
  }

  /** The counters mean what they say: an active record counts as succeeded or failed exactly when
      that is the status it is left with. */
  lemma OutcomeIsStatus(r: Record, current: Option<Identity>, live: Pid -> bool, now: Time)
    ensures Reconciled(r, current, live, now).id == r.id
    ensures var status := Reconciled(r, current, live, now).restart.status;
            match OutcomeOf(r, current, live)
            case Untouched => !Active(r.restart.status) && status == r.restart.status
            case Won => Active(r.restart.status) && status == RestartSucceeded
            case Lost => Active(r.restart.status) && status == RestartFailed
            case StillRunning => Active(r.restart.status) && status == r.restart.status
  {
    hide Log;
  }

  /** The records already visited that `kind` puts in class `k`. */
  function Having<K(==)>(before: map<Id, Record>, paths: set<Id>, kind: Record -> K, k: K): set<Id> {
    set id | id in before && id !in paths && kind(before[id]) == k
  }

  lemma HavingStep<K>(before: map<Id, Record>, paths: set<Id>, path: Id, kind: Record -> K, k: K)
    requires path in paths && paths <= before.Keys
    ensures |Having(before, paths - {path}, kind, k)|
            == |Having(before, paths, kind, k)| + if kind(before[path]) == k then 1 else 0
  {
    var old_, new_ := Having(before, paths, kind, k), Having(before, paths - {path}, kind, k);
    if kind(before[path]) == k {
      assert new_ == old_ + {path};
    } else {
      assert new_ == old_;
    }
  }

  /** The counters agree with the classes of the records visited so far. */
  ghost predicate Tallied(result: SweepResult, before: map<Id, Record>, paths: set<Id>, kind: Record -> Tally) {
    && result.scanned == |before.Keys| == |paths| + Total(result)
    && forall t: Tally :: Count(result, t) == |Having(before, paths, kind, t)|
  }

  lemma TalliedStep(result: SweepResult, before: map<Id, Record>, paths: set<Id>, path: Id, kind: Record -> Tally)
    requires Tallied(result, before, paths, kind) && path in paths && paths <= before.Keys
    ensures Tallied(Bump(result, kind(before[path])), before, paths - {path}, kind)
  {
    hide Having;
    var tally := kind(before[path]);
    BumpCounts(result, tally);
    forall t: Tally ensures Count(Bump(result, tally), t) == |Having(before, paths - {path}, kind, t)| {
      HavingStep(before, paths, path, kind, t);
    }
  }

  class ResetOutbox {
    var records: map<Id, Record>

    ghost predicate Valid()
      reads this
    {
      forall id :: id in records ==> records[id].id == id
    }

    constructor ()
      ensures Valid() && records == map[]
    {
      records := map[];
    }

    /** `prepare_reset_notification` undisturbed: reuse the record that consumed this source, refuse
        while a restart is active, otherwise write exactly one new record. Records that cannot be
        read are passed over. */
    method Prepare(id: Id, now: Time, request: Request, ownership: Option<Ownership>,
                   ambient: Option<Provenance>, fallback: string, readable: Id -> bool)
      returns (r: Result<Reservation, PrepareError>)
      requires Valid() && id !in records
      modifies this
      ensures Valid()
      ensures var made := NewRecord(id, now, request, ownership, ambient, fallback);
              match r
              case Err(InvalidOwnership) => made.None? && records == old(records)
              case Err(AlreadyActive) =>
                && made.Some? && records == old(records)
                && (exists x :: x in records && readable(x) && Active(records[x].restart.status))
                && (made.value.source != "" ==> forall x :: x in records && readable(x) ==> !SameTransaction(records[x], made.value))
              case Ok(reservation) =>
                && made.Some?
                && if reservation.reused then
                     records == old(records) && made.value.source != ""
                     && reservation.id in records && readable(reservation.id) && SameTransaction(records[reservation.id], made.value)
                   else
                     reservation.id == id && records == old(records)[id := made.value]
                     && (forall x :: x in old(records) && readable(x) ==> !Active(old(records)[x].restart.status))
                     && (made.value.source != "" ==>
                           forall x :: x in old(records) && readable(x) ==> !SameTransaction(old(records)[x], made.value))
    {
      var made := NewRecord(id, now, request, ownership, ambient, fallback);
      if made.None? {
        return Err(InvalidOwnership);
      }
      var record := made.value;
      if record.source != "" {
        var paths := records.Keys;
        while paths != {}
          invariant paths <= records.Keys
          invariant forall x :: x in records && x !in paths && readable(x) ==> !SameTransaction(records[x], record)
          decreases paths
        {
          var path :| path in paths;
          if readable(path) && SameTransaction(records[path], record) {
            return Ok(Reservation(path, true));
          }
          paths := paths - {path};
        }
      }
      var paths := records.Keys;
      while paths != {}
        invariant paths <= records.Keys
        invariant forall x :: x in records && x !in paths && readable(x) ==> !Active(records[x].restart.status)
        decreases paths
      {
        var path :| path in paths;
        if readable(path) && Active(records[path].restart.status) {
          return Err(AlreadyActive);
        }
        paths := paths - {path};
      }
      records := records[id := record];
      r := Ok(Reservation(id, false));
    }

    method MarkSupervisorStarted(id: Id, pid: Pid, now: Time) returns (ok: bool)
      modifies this
      ensures ok <==> id in old(records)
      ensures records == if ok then old(records)[id := SupervisorStartedOf(old(records)[id], pid, now)] else old(records)
    {
      if id !in records {
        return false;
      }
      var record := records[id];
      var restart := record.restart;
      if restart.status == Prepared {
        restart := restart.(history := Log(restart.history, SupervisorStarted, now));
        restart := restart.(status := SupervisorStarted, supervisorPid := Some(pid));
        record := record.(restart := restart);
      }
      records := records[id := record];
      ok := true;
    }

    method MarkRestarting(id: Id, supervisor: Option<Pid>, now: Time) returns (ok: bool)
      modifies this
      ensures ok <==> id in old(records)
      ensures records == if ok then old(records)[id := RestartingOf(old(records)[id], supervisor, now)] else old(records)
    {
      if id !in records {
        return false;
      }
      var record := records[id];
      var restart := record.restart;
      if restart.status in {Prepared, SupervisorStarted} {
        restart := restart.(history := Log(restart.history, Restarting, now));
        restart := restart.(status := Restarting);
        if supervisor.Some? {
          restart := restart.(supervisorPid := supervisor);
        }
        record := record.(restart := restart);
      }
      records := records[id := record];
      ok := true;
    }

    method MarkSucceeded(id: Id, evidence: Option<Identity>, now: Time) returns (ok: bool)
      modifies this
      ensures ok <==> id in old(records)
      ensures records == if ok then old(records)[id := SucceededOf(old(records)[id], evidence, now)] else old(records)
    {
      if id !in records {
        return false;
      }
      var record := records[id];
      var delivery := record.delivery;
      if delivery.status == Ineligible {
        var history := Log(delivery.history, Pending, now);
        delivery := delivery.(status := Pending, history := history);
      }
      var restart := record.restart;
      if restart.status == RestartSucceeded {
        assert records == records[id := record];
        return true;
      }
      restart := restart.(history := Log(restart.history, RestartSucceeded, now));
      restart := restart.(status := RestartSucceeded, evidence := evidence);
      records := records[id := record.(restart := restart, delivery := delivery)];
      ok := true;
    }

    method MarkFailed(id: Id, now: Time) returns (ok: bool)
      modifies this
      ensures ok <==> id in old(records)
      ensures records == if ok then old(records)[id := FailedOf(old(records)[id], now)] else old(records)
    {
      if id !in records {
        return false;
      }
      var record := records[id];
      var restart := record.restart;
      if restart.status in {RestartSucceeded, RestartFailed} {
        assert records == records[id := record];
        return true;
      }
      var delivery := record.delivery;
      if delivery.status == Ineligible {
        var history := Log(delivery.history, Pending, now);
        delivery := delivery.(status := Pending, history := history);
      }
      restart := restart.(history := Log(restart.history, RestartFailed, now));
      restart := restart.(status := RestartFailed, evidence := None);
      records := records[id := record.(restart := restart, delivery := delivery)];
      ok := true;
    }

    /** One record of the reconciliation. */
    method ReconcileRecord(path: Id, current: Option<Identity>, live: Pid -> bool, now: Time) returns (outcome: Outcome)
      requires path in records
      modifies this
      ensures records == old(records)[path := Reconciled(old(records)[path], current, live, now)]
      ensures outcome == OutcomeOf(old(records)[path], current, live)
    {
      hide Log;
      hide IdentityKey;
      var record := records[path];
      var restart := record.restart;
      if !Active(restart.status) {
        assert records == records[path := record];
        return Untouched;
      }
      if IdentityChanged(restart.request.oldIdentity, current) {
        var delivery := record.delivery;
        if delivery.status == Ineligible {
          delivery := delivery.(history := Log(delivery.history, Pending, now), status := Pending);
        }
        restart := restart.(history := Log(restart.history, RestartSucceeded, now));
        restart := restart.(status := RestartSucceeded, evidence := current);
        records := records[path := record.(restart := restart, delivery := delivery)];
        return Won;
      }
      if restart.supervisorPid.Some? && restart.supervisorPid.value > 0 && live(restart.supervisorPid.value) {
        assert records == records[path := record];
        return StillRunning;
      }
      var status := if record.current then Pending else Suppressed;
      var delivery := record.delivery.(status := status, history := Log(record.delivery.history, status, now));
      restart := restart.(history := Log(restart.history, RestartFailed, now));
      restart := restart.(status := RestartFailed, evidence := None);
      records := records[path := record.(restart := restart, delivery := delivery)];
      outcome := Lost;
    }

    /** `reconcile_prepared_reset_notifications`: every record is reconciled once, and the counters
        count the active records by how they were left. */
    method Reconcile(current: Option<Identity>, live: Pid -> bool, now: Time)
      returns (scanned: nat, succeeded: nat, failed: nat, inProgress: nat)
      requires Valid()
      modifies this
      ensures Valid() && records.Keys == old(records).Keys
      ensures forall id :: id in records ==> records[id] == Reconciled(old(records)[id], current, live, now)
      ensures scanned == succeeded + failed + inProgress
      ensures succeeded == |Having(old(records), {}, r => OutcomeOf(r, current, live), Won)|
      ensures failed == |Having(old(records), {}, r => OutcomeOf(r, current, live), Lost)|
      ensures inProgress == |Having(old(records), {}, r => OutcomeOf(r, current, live), StillRunning)|
    {
      hide Reconciled;
      hide OutcomeOf;
      hide Having;
      var before := records;
      var paths := records.Keys;
      ghost var kind := r => OutcomeOf(r, current, live);
      scanned, succeeded, failed, inProgress := 0, 0, 0, 0;
      NothingVisited(before, kind, Won);
      NothingVisited(before, kind, Lost);
      NothingVisited(before, kind, StillRunning);
      while paths != {}
        invariant paths <= records.Keys == before.Keys
        invariant forall id :: id in before ==> records[id].id == before[id].id == id
        invariant forall id :: id in before ==>
          records[id] == if id in paths then before[id] else Reconciled(before[id], current, live, now)
        invariant scanned == succeeded + failed + inProgress
        invariant succeeded == |Having(before, paths, kind, Won)|
        invariant failed == |Having(before, paths, kind, Lost)|
        invariant inProgress == |Having(before, paths, kind, StillRunning)|
        decreases paths
      {
        var path :| path in paths;
        HavingStep(before, paths, path, kind, Won);
        HavingStep(before, paths, path, kind, Lost);
        HavingStep(before, paths, path, kind, StillRunning);
        OutcomeIsStatus(records[path], current, live, now);
        var outcome := ReconcileRecord(path, current, live, now);
        paths := paths - {path};
        if outcome != Untouched {
          scanned := scanned + 1;
        }
        match outcome
        case Untouched =>
        case Won => succeeded := succeeded + 1;
        case Lost => failed := failed + 1;
        case StillRunning => inProgress := inProgress + 1;
      }
    }

    /** `_claim_delivery`, the send, and the recording of its outcome, for one record. */
    method SweepRecord(path: Id, now: Time, pid: Pid, fallback: string, live: Pid -> bool, provider: Id -> Reply)
      returns (tally: Tally)
      requires path in records && records[path].id == path
      modifies this
      ensures records == old(records)[path := SweptOf(old(records)[path], now, pid, fallback, live, provider).0]
      ensures tally == SweptOf(old(records)[path], now, pid, fallback, live, provider).1
    {
      hide ClaimedOf;
      hide DeliveredOf;
      hide FailureOf;
      var record := records[path];
      var (claimed, granted) := ClaimedOf(record, now, pid, fallback,
                                          record.delivery.claimer.Some? && live(record.delivery.claimer.value));
      records := records[path := claimed];
      if !granted {
        match claimed.delivery.status
        case AwaitingTarget => return Waiting;
        case DeliveryFailed => return FailedNow;
        case _ => return Skipped;
      }
      match provider(record.id)
      case Accepted =>
        records := records[path := DeliveredOf(claimed, now)];
        tally := DeliveredNow;
      case Rejected(permanent) =>
        records := records[path := FailureOf(claimed, now, permanent)];
        tally := if Retries(claimed, permanent) then RetryingNow else FailedNow;
    }

    /** `sweep_reset_notifications` undisturbed: every record is swept once, at one reading of the
        clock, and the counters partition the records by what happened to them. */
    method Sweep(now: Time, pid: Pid, fallback: string, live: Pid -> bool, provider: Id -> Reply)
      returns (result: SweepResult)
      requires Valid()
      modifies this
      ensures Valid() && records.Keys == old(records).Keys
      ensures forall id :: id in records ==> records[id] == SweptOf(old(records)[id], now, pid, fallback, live, provider).0
      ensures result.scanned == |old(records)|
      ensures result.scanned == result.delivered + result.retryPending + result.failed + result.waiting + result.skipped
      ensures forall t: Tally ::
                Count(result, t) == |Having(old(records), {}, r => SweptOf(r, now, pid, fallback, live, provider).1, t)|
    {
      hide SweptOf;
      hide Tallied;
      var before := records;
      var paths := records.Keys;
      ghost var kind := r => SweptOf(r, now, pid, fallback, live, provider).1;
      result := SweepResult(|paths|, 0, 0, 0, 0, 0);
      TalliedStart(result, before, kind);
      while paths != {}
        invariant paths <= records.Keys == before.Keys
        invariant forall id :: id in before ==> records[id].id == before[id].id == id
        invariant forall id :: id in before ==>
          records[id] == if id in paths then before[id] else SweptOf(before[id], now, pid, fallback, live, provider).0
        invariant Tallied(result, before, paths, kind)
        decreases paths
      {
        var path :| path in paths;
        TalliedStep(result, before, paths, path, kind);
        SweptKeepsId(records[path], now, pid, fallback, live, provider);
        var tally := SweepRecord(path, now, pid, fallback, live, provider);
        paths := paths - {path};
        result := Bump(result, tally);
      }
      TalliedEnd(result, before, kind);
    }
  }

  lemma TalliedStart(result: SweepResult, before: map<Id, Record>, kind: Record -> Tally)
    requires result == SweepResult(|before.Keys|, 0, 0, 0, 0, 0)
    ensures Tallied(result, before, before.Keys, kind)
  {
    hide Having;
    forall t: Tally ensures Count(result, t) == |Having(before, before.Keys, kind, t)| {
      NothingVisited(before, kind, t);
    }
  }

  lemma NothingVisited<K>(before: map<Id, Record>, kind: Record -> K, k: K)
    ensures |Having(before, before.Keys, kind, k)| == 0
  {
    assert Having(before, before.Keys, kind, k) == {};
  }

  lemma TalliedEnd(result: SweepResult, before: map<Id, Record>, kind: Record -> Tally)
    requires Tallied(result, before, {}, kind)
    ensures result.scanned == |before| == Total(result)
    ensures forall t: Tally :: Count(result, t) == |Having(before, {}, kind, t)|
  {
    assert |before| == |before.Keys|;
  }
}
