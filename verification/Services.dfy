/** `agentbox/services.py`: the detached supervisor of one prepared restart, with what it can see
    of the host as observations. */
module Services {
  import opened Prelude
  import opened OutboxRecord

  /** A preflight that finds the guarded process, or refuses. */
  datatype Preflight = Found(pid: int) | Refused

  /** One look at the host by a wait loop: did the query answer, the process id it showed, and
      whether that process was the live canonical resident. */
  datatype Poll = Poll(answered: bool, pid: int, healthy: bool)

  /** What the host shows one supervisor: the preflight, the restart command's exit code, and the
      polls until the deadline. */
  datatype Host = Host(preflight: Preflight, exitCode: int, polls: seq<Poll>)

  /** `_systemd_identity` and `_tmux_identity` */
  function IdentityOf(backend: string, pid: int): Identity {
    if backend == "systemd" then Identity("systemd", pid, 0) else Identity(backend, 0, pid)
  }

  /** `_identity_tuple` */
  function IdentityTuple(v: Option<Identity>): Option<(string, Pid)> {
    if v.None? then None
    else
      var pid := PidOf(v.value);
      if v.value.backend in {"systemd", "tmux"} && pid > 0 then Some((v.value.backend, pid)) else None
  }

  function PidOf(v: Identity): Pid {
    if v.backend == "systemd" then v.mainPid else v.panePid
  }

  /** The process id `v` shows is the replacement the wait loops look for. */
  predicate Qualifies(backend: string, poll: Poll, oldPid: Pid) {
    poll.answered && poll.healthy && poll.pid != oldPid && (backend == "systemd" ==> poll.pid > 0)
  }

  /** The query answered and showed the live canonical resident under another process id, a positive one
      for systemd. */
  predicate ShowsAnother(backend: string, poll: Poll, oldPid: Pid) {
    poll.answered && poll.healthy && poll.pid != oldPid && (backend != "systemd" || poll.pid > 0)
  }

  predicate IsFirst(backend: string, polls: seq<Poll>, oldPid: Pid, i: nat)
    requires i < |polls|
  {
    ShowsAnother(backend, polls[i], oldPid) && forall j :: 0 <= j < i ==> !ShowsAnother(backend, polls[j], oldPid)
  }

  /** The first replacement a run of polls shows. */
  function FirstReplacement(backend: string, polls: seq<Poll>, oldPid: Pid): (r: Option<Pid>)
    ensures r.Some? ==> r.value != oldPid && exists i :: 0 <= i < |polls| && polls[i].pid == r.value && Qualifies(backend, polls[i], oldPid)
    ensures r.None? ==> forall i :: 0 <= i < |polls| ==> !Qualifies(backend, polls[i], oldPid)
  {
    if polls == [] then None
    else if Qualifies(backend, polls[0], oldPid) then Some(polls[0].pid)
    else FirstReplacement(backend, polls[1..], oldPid)
  }

  /** `_wait_for_tmux_resident` and `_wait_for_systemd_resident` */
  method WaitForResident(backend: string, polls: seq<Poll>, oldPid: Pid) returns (r: Option<Pid>)
    ensures r == FirstReplacement(backend, polls, oldPid)
    ensures r.Some? ==> exists i :: 0 <= i < |polls| && r.value == polls[i].pid && IsFirst(backend, polls, oldPid, i)
    ensures r.None? ==> forall i :: 0 <= i < |polls| ==> !ShowsAnother(backend, polls[i], oldPid)
  {
    var i := 0;
    while i < |polls|
      invariant 0 <= i <= |polls|
      invariant forall j :: 0 <= j < i ==> !ShowsAnother(backend, polls[j], oldPid)
      invariant FirstReplacement(backend, polls, oldPid) == FirstReplacement(backend, polls[i..], oldPid)
    {
      if Qualifies(backend, polls[i], oldPid) {
        return Some(polls[i].pid);
      }
      i := i + 1;
    }
    r := None;
  }

  datatype Verdict = Replaced(evidence: Identity) | NotReplaced

  /** What one supervision decides, and whether it crosses the restart boundary on the way:
      the specification of `execute_prepared_restart`. */
  function Supervise(request: Request, host: Host): (Verdict, bool) {
    if request.backend !in {"tmux", "systemd"} || host.preflight.Refused? then (NotReplaced, false)
    else
      var current := IdentityOf(request.backend, host.preflight.pid);
      if IdentityTuple(request.oldIdentity) != IdentityTuple(Some(current)) then (Replaced(current), false)
      else if host.exitCode != 0 then (NotReplaced, true)
      else
        match FirstReplacement(request.backend, host.polls, host.preflight.pid)
        case None => (NotReplaced, true)
        case Some(pid) => (Replaced(IdentityOf(request.backend, pid)), true)
  }

  lemma {:induction false} FirstIsFirst(backend: string, polls: seq<Poll>, oldPid: Pid)
    ensures var r := FirstReplacement(backend, polls, oldPid);
            && (r.Some? ==> exists i :: 0 <= i < |polls| && r.value == polls[i].pid && IsFirst(backend, polls, oldPid, i))
            && (r.None? ==> forall i :: 0 <= i < |polls| ==> !ShowsAnother(backend, polls[i], oldPid))
  {
    if polls != [] {
      if Qualifies(backend, polls[0], oldPid) {
        assert IsFirst(backend, polls, oldPid, 0);
      } else {
        FirstIsFirst(backend, polls[1..], oldPid);
        var r := FirstReplacement(backend, polls, oldPid);
        if r.Some? {
          var i :| 0 <= i < |polls[1..]| && r.value == polls[1..][i].pid && IsFirst(backend, polls[1..], oldPid, i);
          assert IsFirst(backend, polls, oldPid, i + 1);
        }
      }
    }
  }

  /** The process found is the one the request names: the same backend and process id, or neither says
      anything readable. */
  predicate StillThere(request: Request, pid: Pid) {
    var v := request.oldIdentity;
    var named := v.Some? && v.value.backend in {"systemd", "tmux"}
                 && (if v.value.backend == "systemd" then v.value.mainPid else v.value.panePid) > 0;
    if pid > 0 then
      named && v.value.backend == request.backend && (if request.backend == "systemd" then v.value.mainPid else v.value.panePid) == pid
    else !named
  }

  /** Exactly when a supervisor reports a replacement, on what evidence, and when it restarts anything, in
      terms of the request and of what the host shows. */
  lemma ReplacedExactlyWhen(request: Request, host: Host)
    ensures var (verdict, crossed) := Supervise(request, host);
            var found := request.backend in {"systemd", "tmux"} && host.preflight.Found?;
            && (crossed <==> found && StillThere(request, host.preflight.pid))
            && (verdict.Replaced? <==>
                  found && (!StillThere(request, host.preflight.pid)
                            || (host.exitCode == 0 &&
                                exists i :: 0 <= i < |host.polls| && ShowsAnother(request.backend, host.polls[i], host.preflight.pid))))
    ensures var (verdict, crossed) := Supervise(request, host);
            verdict.Replaced? ==>
              exists pid ::
                && verdict.evidence == (if request.backend == "systemd" then Identity("systemd", pid, 0) else Identity("tmux", 0, pid))
                && if !crossed then pid == host.preflight.pid
                   else exists i :: 0 <= i < |host.polls| && pid == host.polls[i].pid && IsFirst(request.backend, host.polls, host.preflight.pid, i)
  {
    if host.preflight.Found? {
      FirstIsFirst(request.backend, host.polls, host.preflight.pid);
      hide FirstReplacement;
    }
  }

  /** The two readings of an identity, in the outbox and in the supervisor, agree. */
  lemma IdentityReadingsAgree(v: Option<Identity>)
    ensures IdentityKey(v) == IdentityTuple(v)
  {
  }

  /** A request written by `restart_service`: the backend it preflighted and the process it found
      there. The systemd preflight insists on a positive pid; a tmux pane id only has to be digits. */
  predicate FromRestartService(request: Request) {
    && request.backend in {"systemd", "tmux"}
    && request.oldIdentity.Some?
    && request.oldIdentity == Some(IdentityOf(request.backend, PidOf(request.oldIdentity.value)))
    && PidOf(request.oldIdentity.value) >= (if request.backend == "systemd" then 1 else 0)
  }

  /** A process id that was read is a number without a sign. */
  predicate Plausible(host: Host) {
    && (host.preflight.Found? ==> host.preflight.pid >= 0)
    && forall i :: 0 <= i < |host.polls| && host.polls[i].answered ==> host.polls[i].pid >= 0
  }

  /** `e` shows another process than the one the request was made against, on the same backend. */
  predicate AnotherProcess(request: Request, e: Identity) {
    request.oldIdentity.Some? && e.backend == request.oldIdentity.value.backend
    && PidOf(e) != PidOf(request.oldIdentity.value)
  }

  /** The request says what is to be replaced on the backend it names. A caller can check
      this of the request; every request of `restart_service` satisfies it. */
  predicate Bound(request: Request) {
    request.backend in {"systemd", "tmux"} ==>
      request.oldIdentity.Some? && request.oldIdentity.value.backend == request.backend
  }

  lemma RestartServiceBinds(request: Request)
    requires FromRestartService(request)
    ensures Bound(request)
  {
  }

  /** A supervisor calls the restart of a bound request successful only if it saw another process
      id on the same backend: before it touched anything, or after the restart command. */
  lemma SupervisorSawReplacement(request: Request, host: Host)
    requires Bound(request) && Plausible(host)
    requires Supervise(request, host).0.Replaced?
    ensures AnotherProcess(request, Supervise(request, host).0.evidence)
    ensures Supervise(request, host).0.evidence.backend == request.backend
    ensures var e := Supervise(request, host).0.evidence;
            PidOf(e) == host.preflight.pid || exists i :: 0 <= i < |host.polls| && host.polls[i].pid == PidOf(e) && host.polls[i].answered
  {
  }

  /** A host that shows one process, and nothing after. */
  const ONE_PROCESS := Host(Found(1), 0, [])

  /** On it the supervisor of any unbound request reports a replacement it did not see. */
  lemma UnboundRequestSucceedsUnseen(request: Request)
    requires !Bound(request)
    ensures Plausible(ONE_PROCESS)
    ensures var verdict := Supervise(request, ONE_PROCESS).0;
            verdict.Replaced? && !AnotherProcess(request, verdict.evidence)
  {
  }

  /** Exactly the bound requests are supervised without a false success, whatever the host shows. */
  lemma SupervisedSafelyExactlyWhenBound(request: Request)
    ensures (forall host :: Plausible(host) && Supervise(request, host).0.Replaced? ==>
               AnotherProcess(request, Supervise(request, host).0.evidence))
            <==> Bound(request)
  {
    hide Supervise;
    hide Bound;
    hide AnotherProcess;
    if Bound(request) {
      forall host | Plausible(host) && Supervise(request, host).0.Replaced?
        ensures AnotherProcess(request, Supervise(request, host).0.evidence)
      {
        SupervisorSawReplacement(request, host);
      }
    } else {
      UnboundRequestSucceedsUnseen(request);
    }
  }

  /** Startup reconciliation calls a restart successful when both identities are readable and
      differ. That is another process on the same backend exactly when the backends agree. */
  lemma ReconcilerSawReplacement(request: Request, current: Identity)
    requires IdentityChanged(request.oldIdentity, Some(current))
    ensures AnotherProcess(request, current) <==> request.oldIdentity.value.backend == current.backend
  {
  }

  /** So a host that changed backend in between lets reconciliation succeed on an equal pid. */
  lemma ReconcilerAcrossBackends(pid: Pid)
    requires pid > 0
    ensures IdentityChanged(Some(IdentityOf("systemd", pid)), Some(IdentityOf("tmux", pid)))
  {
  }
}
