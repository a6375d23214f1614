/** `execute_prepared_restart` run against the outbox. */
module Supervisor {
  import opened Prelude
  import opened OutboxRecord
  import opened Services
  import opened OutboxEvidence
  import opened OutboxFields
  import opened Outbox

  /** What one undisturbed supervision makes of a record. */
  function SupervisedOf(r: Record, host: Host, pid: Pid, now: Time): Record {
    var (verdict, crossed) := Supervise(r.restart.request, host);
    var r1 := if crossed then RestartingOf(r, Some(pid), now) else r;
    match verdict
    case Replaced(evidence) => SucceededOf(r1, Some(evidence), now)
    case NotReplaced => FailedOf(r1, now)
  }

  /** The restart command, and the wait for another resident if it exits with zero. */
  method RestartAndWait(backend: string, host: Host) returns (replacement: Option<Pid>)
    requires host.preflight.Found?
    ensures replacement == if host.exitCode == 0 then FirstReplacement(backend, host.polls, host.preflight.pid) else None
  {
    if host.exitCode == 0 {
      replacement := WaitForResident(backend, host.polls, host.preflight.pid);
    } else {
      replacement := None;
    }
  }

  /** `execute_prepared_restart`: its own restart is over afterwards, succeeded if the supervisor says so, and
      no other record is touched. */
  method ExecutePreparedRestart(outbox: ResetOutbox, id: Id, host: Host, pid: Pid, now: Time)
    returns (r: Result<bool, ()>)
    modifies outbox
    ensures r.Err? <==> id !in old(outbox.records)
    ensures r.Err? ==> outbox.records == old(outbox.records)
    ensures r.Ok? ==>
              && outbox.records == old(outbox.records)[id := SupervisedOf(old(outbox.records)[id], host, pid, now)]
              && (r.value <==> Supervise(old(outbox.records)[id].restart.request, host).0.Replaced?)
    ensures r.Ok? ==>
              && outbox.records.Keys == old(outbox.records).Keys
              && !Active(outbox.records[id].restart.status)
              && (r.value ==> outbox.records[id].restart.status == RestartSucceeded)
              && forall x :: x in outbox.records && x != id ==> outbox.records[x] == old(outbox.records)[x]
  {
    hide EvidenceOk;
    hide Plausible;
    hide IdentityTuple;
    hide IdentityOf;
    hide FirstReplacement;
    hide IsFirst;
    hide ShowsAnother;
    hide Active;
    if id in outbox.records {
      SupervisionFinishes(outbox.records[id], host, pid, now);
    }
    hide RestartingOf;
    hide SucceededOf;
    hide FailedOf;
    if id !in outbox.records {
      return Err(());
    }
    var request := outbox.records[id].restart.request;
    if request.backend !in {"tmux", "systemd"} || host.preflight.Refused? {
      var _ := outbox.MarkFailed(id, now);
      return Ok(false);
    }
    var current := IdentityOf(request.backend, host.preflight.pid);
    if IdentityTuple(request.oldIdentity) != IdentityTuple(Some(current)) {
      var _ := outbox.MarkSucceeded(id, Some(current), now);
      return Ok(true);
    }
    var _ := outbox.MarkRestarting(id, Some(pid), now);
    var replacement := RestartAndWait(request.backend, host);
    if replacement.Some? {
      var _ := outbox.MarkSucceeded(id, Some(IdentityOf(request.backend, replacement.value)), now);
      r := Ok(true);
    } else {
      var _ := outbox.MarkFailed(id, now);
      r := Ok(false);
    }
  }

  /** A supervision always leaves the restart finished; succeeded exactly if it saw a replacement
      or the restart had succeeded before; and what it leaves keeps the evidence rule. */
  lemma SupervisionFinishes(r: Record, host: Host, pid: Pid, now: Time)
    ensures var r' := SupervisedOf(r, host, pid, now);
            && !Active(r'.restart.status)
            && (r'.restart.status == RestartSucceeded <==>
                  r.restart.status == RestartSucceeded || Supervise(r.restart.request, host).0.Replaced?)
    ensures EvidenceOk(r) && Plausible(host) ==> EvidenceOk(SupervisedOf(r, host, pid, now))
  {
    hide Log;
    hide Supervise;
    if EvidenceOk(r) && Plausible(host) && Bound(r.restart.request)
       && Supervise(r.restart.request, host).0.Replaced? {
      SupervisorSawReplacement(r.restart.request, host);
    }
  }

  /** What it leaves in the record: the evidence of the replacement, the process id of the supervisor if it went
      on to restart, and a delivery that waited for the restart released. */
  lemma SupervisionMeans(r: Record, host: Host, pid: Pid, now: Time)
    requires r.restart.status.Prepared? || r.restart.status.SupervisorStarted?
    ensures var r' := SupervisedOf(r, host, pid, now);
            var (verdict, crossed) := Supervise(r.restart.request, host);
            && r'.(restart := r.restart, delivery := r.delivery) == r
            && r'.restart.request == r.restart.request
            && r'.restart.supervisorPid == (if crossed then Some(pid) else r.restart.supervisorPid)
            && r'.restart.evidence == (if verdict.Replaced? then Some(verdict.evidence) else None)
            && DeliveryReleased(r.delivery, r'.delivery, now)
  {
    hide Log;
    hide Supervise;
  }
}
