/** `agentbox/host.py`: launching one operation over several repositories. Other operations allocate
    between any two of its steps, any repository may refuse, and a launch may be tried again. */
module Host {
  import opened Prelude
  import opened Porcelain
  import opened Worktrees

  datatype LaunchState = Launching | FailedBeforeRunning | Running

  datatype LaunchPhase = WorktreesPhase | TmuxPhase

  datatype Event =
    | LaunchStarted(repoNames: seq<string>)
    | WorktreeReady(repo: string, status: Status)
    | LaunchFailed(phase: LaunchPhase, completed: seq<string>, requested: seq<string>)
    | LaunchRunning(session: string)

  /** tmux starts the session, refuses, or starts it and then cannot be inspected or recorded. */
  datatype Tmux = Starts | Refuses | StartsUnrecorded

  /** One launch: what is asked for, the luck of each allocation, and what the other actors do
      before it. */
  datatype Call = Call(
    operation: string, repoNames: seq<string>, baseRefs: map<string, string>,
    lucks: nat -> Luck, others: (nat, World) -> World, tmux: Tmux)
  {
    function BaseRef(i: nat): Option<string>
      requires i < |repoNames|
    {
      if repoNames[i] in baseRefs then Some(baseRefs[repoNames[i]]) else None
    }

    /** The other actors allocate too: they take nothing away. */
    ghost predicate Peaceful() {
      forall i, w :: Preserves(w, others(i, w))
    }
  }

  /** What the loop over the repositories has done so far. */
  datatype Progress = Progress(world: World, done: seq<Allocation>, error: Option<Error>)

  /** The loop of `prepare_host_resources`, after `n` repositories. */
  function Provisioned(l: Layout, repos: map<string, Repo>, w: World, call: Call, n: nat): (p: Progress)
    requires n <= |call.repoNames|
    ensures |p.done| <= n && (p.error.None? <==> |p.done| == n)
  {
    if n == 0 then Progress(w, [], None)
    else
      var before := Provisioned(l, repos, w, call, n - 1);
      if before.error.Some? then before
      else
        var (w', r) := Allocate(l, repos, call.others(n - 1, before.world), call.operation, call.repoNames[n - 1],
                                call.BaseRef(n - 1), call.lucks(n - 1));
        if r.Ok? then Progress(w', before.done + [r.value], None) else Progress(w', before.done, Some(r.error))
  }

  /** `worktree_ready` events. */
  function ReadyEvents(call: Call, done: seq<Allocation>): (events: seq<Event>)
    requires |done| <= |call.repoNames|
    ensures |events| == |done|
  {
    if done == [] then []
    else ReadyEvents(call, done[..|done| - 1]) + [WorktreeReady(call.repoNames[|done| - 1], done[|done| - 1].status)]
  }

  /** The state a launch changes: the git and store world, the operations' launch states, the tmux
      sessions and the operation's event log. */
  datatype State = State(world: World, launches: map<string, LaunchState>, sessions: set<string>, events: map<string, seq<Event>>)
  {
    function Log(operation: string): seq<Event> {
      if operation in events then events[operation] else []
    }
  }

  function Logged(s: State, operation: string, more: seq<Event>): State {
    s.(events := s.events[operation := s.Log(operation) + more])
  }

  /** `_create_or_load_operation` and the first event. */
  function Opened(s: State, call: Call): State {
    var s' := if call.operation in s.launches then s else s.(launches := s.launches[call.operation := Launching]);
    Logged(s', call.operation, [LaunchStarted(call.repoNames)])
  }

  /** `_record_failed_attempt` */
  function FailedAttempt(s: State, call: Call, phase: LaunchPhase, done: seq<Allocation>): State
    requires |done| <= |call.repoNames|
  {
    Logged(s.(launches := s.launches[call.operation := FailedBeforeRunning]), call.operation,
           [LaunchFailed(phase, call.repoNames[..|done|], call.repoNames)])
  }

  /** `prepare_host_resources`: its specification. */
  function Prepared(l: Layout, repos: map<string, Repo>, s: State, call: Call): (State, Result<seq<Allocation>, LaunchPhase>) {
    var p := Provisioned(l, repos, s.world, call, |call.repoNames|);
    var s' := Logged(Opened(s, call), call.operation, ReadyEvents(call, p.done)).(world := p.world);
    if p.error.Some? then (FailedAttempt(s', call, WorktreesPhase, p.done), Err(WorktreesPhase)) else (s', Ok(p.done))
  }

  /** `start_host_session`: its specification. A session name that is taken makes tmux refuse. */
  function SessionStarted(sessionOf: string -> string, s: State, call: Call, done: seq<Allocation>): (State, Result<string, LaunchPhase>)
    requires |done| <= |call.repoNames|
  {
    var name := sessionOf(call.operation);
    if call.tmux.Refuses? || name in s.sessions then (FailedAttempt(s, call, TmuxPhase, done), Err(TmuxPhase))
    else
      var s' := s.(sessions := s.sessions + {name});
      if call.tmux.StartsUnrecorded? then (FailedAttempt(s', call, TmuxPhase, done), Err(TmuxPhase))
      else (Logged(s'.(launches := s'.launches[call.operation := Running]), call.operation, [LaunchRunning(name)]), Ok(name))
  }

  /** What starting a session amounts to: it adds that session or nothing, calls the operation running
      exactly if it started it and could record it, failed before running otherwise, and adds one
      event; no other operation is touched. */
  lemma SessionStartedMeans(sessionOf: string -> string, s: State, call: Call, done: seq<Allocation>)
    requires |done| <= |call.repoNames|
    ensures var (s', r) := SessionStarted(sessionOf, s, call, done);
            var name, started := sessionOf(call.operation), !call.tmux.Refuses? && sessionOf(call.operation) !in s.sessions;
            && s'.world == s.world
            && s'.sessions == s.sessions + (if started then {name} else {})
            && (r.Ok? <==> started && call.tmux.Starts?)
            && s'.launches == s.launches[call.operation := if r.Ok? then Running else FailedBeforeRunning]
            && s'.Log(call.operation) == s.Log(call.operation) +
                 [if r.Ok? then LaunchRunning(name) else LaunchFailed(TmuxPhase, call.repoNames[..|done|], call.repoNames)]
            && (forall x :: x != call.operation ==> s'.Log(x) == s.Log(x))
  {
  }

  /** `launch_host`: its specification. */
  function Launched(l: Layout, repos: map<string, Repo>, sessionOf: string -> string, s: State, call: Call)
    : (State, Result<string, LaunchPhase>)
  {
    var (s', r) := Prepared(l, repos, s, call);
    if r.Err? then (s', Err(r.error)) else SessionStarted(sessionOf, s', call, r.value)
  }

  lemma LoggedNothing(s: State, operation: string)
    requires operation in s.events
    ensures Logged(s, operation, []) == s
  {
    assert s.Log(operation) + [] == s.events[operation];
    assert s.events[operation := s.events[operation]] == s.events;
  }

  lemma LoggedOneMore(s: State, operation: string, events: seq<Event>, event: Event, w: World)
    ensures Logged(Logged(s, operation, events).(world := w), operation, [event])
         == Logged(s, operation, events + [event]).(world := w)
  {
    assert s.Log(operation) + events + [event] == s.Log(operation) + (events + [event]);
    assert s.events[operation := s.Log(operation) + events][operation := s.Log(operation) + events + [event]]
        == s.events[operation := s.Log(operation) + (events + [event])];
  }

  lemma ReadyOneMore(call: Call, done: seq<Allocation>, a: Allocation)
    requires |done| < |call.repoNames|
    ensures ReadyEvents(call, done + [a]) == ReadyEvents(call, done) + [WorktreeReady(call.repoNames[|done|], a.status)]
  {
    assert (done + [a])[..|done|] == done;
  }

  // ---- What the loop guarantees ---------------------------------------------------

  /** However far the loop got, it removed nothing, and every worktree it made is finished at the
      end, after everything others did meanwhile. */
  lemma {:induction false} ProvisionedFinishes(l: Layout, repos: map<string, Repo>, w: World, call: Call, n: nat)
    requires l.Lawful() && call.Peaceful() && n <= |call.repoNames|
    ensures var p := Provisioned(l, repos, w, call, n);
            && Preserves(w, p.world)
            && forall i :: 0 <= i < |p.done| ==>
                 Finished(l, repos, p.world, call.operation, call.repoNames[i], p.done[i].resource, p.done[i].worktree)
  {
    hide Preserves;
    hide Finished;
    hide Allocate;
    if n == 0 {
      PreservesItself(w);
    } else {
      var before := Provisioned(l, repos, w, call, n - 1);
      ProvisionedFinishes(l, repos, w, call, n - 1);
      if before.error.None? {
        var between := call.others(n - 1, before.world);
        var (after, r) := Allocate(l, repos, between, call.operation, call.repoNames[n - 1], call.BaseRef(n - 1), call.lucks(n - 1));
        AllocateIsNonDestructive(l, repos, between, call.operation, call.repoNames[n - 1], call.BaseRef(n - 1), call.lucks(n - 1));
        AllocateFinishes(l, repos, between, call.operation, call.repoNames[n - 1], call.BaseRef(n - 1), call.lucks(n - 1));
        assert Preserves(before.world, between);
        PreservesTransitive(before.world, between, after);
        PreservesTransitive(w, before.world, after);
        forall i | 0 <= i < |before.done|
          ensures Finished(l, repos, after, call.operation, call.repoNames[i], before.done[i].resource, before.done[i].worktree)
        {
          FinishedSurvives(l, repos, before.world, after, call.operation, call.repoNames[i], before.done[i].resource, before.done[i].worktree);
        }
      }
    }
  }

  /** tmux is started only after every requested repository has its worktree, as far as git lists it:
      if a launch adds a session, each repository's worktree is finished then; and only a launch that did so, with the
      session recorded, is called running. */
  lemma SessionNeedsEveryWorktree(l: Layout, repos: map<string, Repo>, sessionOf: string -> string, s: State, call: Call)
    requires l.Lawful() && call.Peaceful()
    ensures var (s', r) := Launched(l, repos, sessionOf, s, call);
            var done := Provisioned(l, repos, s.world, call, |call.repoNames|).done;
            && Preserves(s.world, s'.world)
            && (s'.sessions != s.sessions ==>
                 && s'.sessions == s.sessions + {sessionOf(call.operation)}
                 && |done| == |call.repoNames|
                 && forall i :: 0 <= i < |call.repoNames| ==>
                      Finished(l, repos, s'.world, call.operation, call.repoNames[i], done[i].resource, done[i].worktree))
            && (r.Ok? <==> s'.sessions != s.sessions && call.tmux.Starts?)
            && (r.Ok? <==> s'.launches[call.operation] == Running)
  {
    hide Preserves;
    hide Finished;
    hide Provisioned;
    ProvisionedFinishes(l, repos, s.world, call, |call.repoNames|);
    var p := Provisioned(l, repos, s.world, call, |call.repoNames|);
    assert forall i :: 0 <= i < |p.done| ==>
      Finished(l, repos, p.world, call.operation, call.repoNames[i], p.done[i].resource, p.done[i].worktree);
  }

  /** A launch that fails on a repository keeps the worktrees of the repositories before it, names
      exactly those in its diagnostics, and touches no session. */
  lemma FailureKeepsThePrefix(l: Layout, repos: map<string, Repo>, sessionOf: string -> string, s: State, call: Call)
    requires l.Lawful() && call.Peaceful()
    requires Launched(l, repos, sessionOf, s, call).1 == Err(WorktreesPhase)
    ensures var (s', _) := Launched(l, repos, sessionOf, s, call);
            var done := Provisioned(l, repos, s.world, call, |call.repoNames|).done;
            && |done| < |call.repoNames|
            && s'.sessions == s.sessions
            && s'.launches == s.launches[call.operation := FailedBeforeRunning]
            && s'.Log(call.operation) == s.Log(call.operation) + [LaunchStarted(call.repoNames)] + ReadyEvents(call, done)
                                           + [LaunchFailed(WorktreesPhase, call.repoNames[..|done|], call.repoNames)]
            && forall i :: 0 <= i < |done| ==>
                 Finished(l, repos, s'.world, call.operation, call.repoNames[i], done[i].resource, done[i].worktree)
  {
    hide Preserves;
    hide Finished;
    hide Provisioned;
    hide ReadyEvents;
    ProvisionedFinishes(l, repos, s.world, call, |call.repoNames|);
  }

  lemma {:induction false} ReadyEventsAre(call: Call, done: seq<Allocation>)
    requires |done| <= |call.repoNames|
    ensures ReadyEvents(call, done) == seq(|done|, i requires 0 <= i < |done| => WorktreeReady(call.repoNames[i], done[i].status))
  {
    if done != [] {
      var n := |done| - 1;
      ReadyEventsAre(call, done[..n]);
    }
  }

  /** What every launch records: its start with what was asked for, one event for each worktree in order and with
      how it was come by, and how it ended; and nothing of any other operation. */
  lemma LaunchRecords(l: Layout, repos: map<string, Repo>, sessionOf: string -> string, s: State, call: Call)
    ensures var (s', r) := Launched(l, repos, sessionOf, s, call);
            var p := Provisioned(l, repos, s.world, call, |call.repoNames|);
            && s'.world == p.world
            && s'.launches == s.launches[call.operation := if r.Ok? then Running else FailedBeforeRunning]
            && s'.Log(call.operation) == s.Log(call.operation) + [LaunchStarted(call.repoNames)]
                 + seq(|p.done|, i requires 0 <= i < |p.done| => WorktreeReady(call.repoNames[i], p.done[i].status))
                 + [if r.Ok? then LaunchRunning(sessionOf(call.operation))
                    else LaunchFailed(if p.error.Some? then WorktreesPhase else TmuxPhase, call.repoNames[..|p.done|], call.repoNames)]
            && forall x :: x != call.operation ==> s'.Log(x) == s.Log(x)
  {
    hide Provisioned;
    hide ReadyEvents;
    hide Prepared;
    hide SessionStarted;
    hide State.Log;
    var p := Provisioned(l, repos, s.world, call, |call.repoNames|);
    ReadyEventsAre(call, p.done);
    PreparationLogs(l, repos, s, call);
    var (s1, r1) := Prepared(l, repos, s, call);
    if r1.Ok? {
      SessionStartedMeans(sessionOf, s1, call, r1.value);
    }
  }

  lemma PreparationLogs(l: Layout, repos: map<string, Repo>, s: State, call: Call)
    ensures var (s', r) := Prepared(l, repos, s, call);
            var p := Provisioned(l, repos, s.world, call, |call.repoNames|);
            && s'.world == p.world
            && (if r.Ok? then r.value == p.done && |p.done| == |call.repoNames| && p.error.None?
                else p.error.Some?)
            && s'.launches[call.operation := Running] == s.launches[call.operation := Running]
            && s'.launches[call.operation := FailedBeforeRunning] == s.launches[call.operation := FailedBeforeRunning]
            && (r.Err? ==> s'.launches == s.launches[call.operation := FailedBeforeRunning])
            && s'.Log(call.operation) == s.Log(call.operation) + [LaunchStarted(call.repoNames)] + ReadyEvents(call, p.done)
                 + (if r.Ok? then [] else [LaunchFailed(WorktreesPhase, call.repoNames[..|p.done|], call.repoNames)])
            && forall x :: x != call.operation ==> s'.Log(x) == s.Log(x)
  {
    hide Provisioned;
    hide ReadyEvents;
  }

  /** Between preparation and session a new operation is recorded as launching, and a known one as it was. */
  lemma PreparationRecords(l: Layout, repos: map<string, Repo>, s: State, call: Call)
    requires Prepared(l, repos, s, call).1.Ok?
    ensures var (s', r) := Prepared(l, repos, s, call);
            && call.operation in s'.launches
            && s'.launches[call.operation] == (if call.operation in s.launches then s.launches[call.operation] else Launching)
            && (forall x :: x != call.operation ==> (x in s'.launches <==> x in s.launches) && (x in s.launches ==> s'.launches[x] == s.launches[x]))
            && s'.sessions == s.sessions && |r.value| == |call.repoNames|
  {
    hide Provisioned;
    hide ReadyEvents;
  }

  /** The retry asks for the same things, finds its locks free and its base references known for the
      repositories already done. */
  ghost predicate Retries(repos: map<string, Repo>, w: World, first: Call, again: Call, k: nat) {
    && again.operation == first.operation && again.repoNames == first.repoNames && k <= |first.repoNames|
    && again.Peaceful()
    && forall i :: 0 <= i < k ==> RetryIsLucky(repos, w, again, i)
  }

  ghost predicate RetryIsLucky(repos: map<string, Repo>, w: World, again: Call, i: nat)
    requires i < |again.repoNames|
  {
    var name, base := again.repoNames[i], again.BaseRef(i);
    && again.lucks(i).lock
    && name in repos && name in w.git
    && (if base.Some? && base.value != "" then base.value else repos[name].defaultRef) in w.git[name].commits
  }

  /** A retry reuses what the failed launch finished: the first allocations of any later launch of
      the operation are those very worktrees and resources, reused. */
  lemma {:induction false} RetryReusesThePrefix(l: Layout, repos: map<string, Repo>, w: World, first: Call, later: World, again: Call, n: nat)
    requires l.Lawful() && first.Peaceful()
    requires var p := Provisioned(l, repos, w, first, |first.repoNames|);
             Preserves(p.world, later) && Retries(repos, later, first, again, |p.done|) && n <= |p.done|
    ensures var done := Provisioned(l, repos, w, first, |first.repoNames|).done;
            var retried := Provisioned(l, repos, later, again, n);
            && retried.error.None?
            && Preserves(later, retried.world)
            && forall i :: 0 <= i < n ==> retried.done[i] == Allocation(Reused, done[i].resource, done[i].worktree)
  {
    hide Preserves;
    hide Finished;
    hide Allocate;
    hide RetryIsLucky;
    if n == 0 {
      PreservesItself(later);
    } else {
      RetryReusesThePrefix(l, repos, w, first, later, again, n - 1);
      var p, before := Provisioned(l, repos, w, first, |first.repoNames|), Provisioned(l, repos, later, again, n - 1);
      var between := again.others(n - 1, before.world);
      assert Preserves(before.world, between);
      PreservesTransitive(later, before.world, between);
      PreservesTransitive(p.world, later, between);
      ProvisionedFinishes(l, repos, w, first, |first.repoNames|);
      var a := p.done[n - 1];
      FinishedSurvives(l, repos, p.world, between, first.operation, first.repoNames[n - 1], a.resource, a.worktree);
      assert RetryIsLucky(repos, later, again, n - 1);
      LuckSurvives(repos, later, between, again, n - 1);
      ReusedInPlace(l, repos, between, again, n - 1, a.resource, a.worktree);
    }
  }

  lemma LuckSurvives(repos: map<string, Repo>, w: World, w': World, again: Call, i: nat)
    requires i < |again.repoNames| && RetryIsLucky(repos, w, again, i) && Preserves(w, w')
    ensures RetryIsLucky(repos, w', again, i)
  {
    assert KeepsGit(w.git[again.repoNames[i]], w'.git[again.repoNames[i]]);
  }

  lemma ReusedInPlace(l: Layout, repos: map<string, Repo>, w: World, again: Call, i: nat, resource: Resource, info: WorktreeInfo)
    requires i < |again.repoNames| && RetryIsLucky(repos, w, again, i)
    requires Finished(l, repos, w, again.operation, again.repoNames[i], resource, info)
    ensures Allocate(l, repos, w, again.operation, again.repoNames[i], again.BaseRef(i), again.lucks(i))
         == (w, Ok(Allocation(Reused, resource, info)))
  {
    FinishedIsReused(l, repos, w, again.operation, again.repoNames[i], resource, info, again.BaseRef(i), again.lucks(i));
  }

  /** The base a launch asks for in one repository: its own, unless empty, or else the repository's default. */
  function BaseWanted(repos: map<string, Repo>, call: Call, name: string): string
    requires name in repos
  {
    if name in call.baseRefs && call.baseRefs[name] != "" then call.baseRefs[name] else repos[name].defaultRef
  }

  lemma PreservesCommits(a: World, b: World, name: string)
    requires Preserves(a, b) && name in a.git
    ensures name in b.git && b.git[name].commits == a.git[name].commits
  {
    assert KeepsGit(a.git[name], b.git[name]);
  }

  /** Every branch that a launch creates starts at the commit that the base wanted for its repository had before
      the launch, and a resource recorded for it says so. */
  lemma {:induction false} BranchesStartAtTheirBases(l: Layout, repos: map<string, Repo>, w: World, call: Call, n: nat, i: nat)
    requires call.Peaceful() && n <= |call.repoNames| && i < |Provisioned(l, repos, w, call, n).done|
    requires Provisioned(l, repos, w, call, n).done[i].status == Created && l.Lawful()
    ensures var a, name := Provisioned(l, repos, w, call, n).done[i], call.repoNames[i];
            && name in repos && name in w.git && BaseWanted(repos, call, name) in w.git[name].commits
            && a.worktree.head == Some(w.git[name].commits[BaseWanted(repos, call, name)])
            && a.worktree.branchRef == Some("refs/heads/" + l.branchOf(call.operation, name))
  {
    hide Allocate;
    hide Preserves;
    hide Finished;
    var before := Provisioned(l, repos, w, call, n - 1);
    if i < |before.done| {
      BranchesStartAtTheirBases(l, repos, w, call, n - 1, i);
    } else {
      var between, name := call.others(n - 1, before.world), call.repoNames[n - 1];
      ProvisionedFinishes(l, repos, w, call, n - 1);
      assert Preserves(before.world, between);
      PreservesTransitive(w, before.world, between);
      AllocationBase(l, repos, between, call.operation, name, call.BaseRef(n - 1), call.lucks(n - 1));
      PreservesSameKeys(w, between);
      PreservesCommits(w, between, name);
    }
  }

  lemma PreservesSameKeys(a: World, b: World)
    requires Preserves(a, b)
    ensures a.git.Keys == b.git.Keys
  {
  }

  /** Launching a running operation again is not guarded against: tmux refuses the taken name, and
      the operation is recorded as failed before running while its session still runs. */
  lemma RelaunchHidesARunningSession(l: Layout, repos: map<string, Repo>, sessionOf: string -> string, s: State, call: Call)
    requires sessionOf(call.operation) in s.sessions
    ensures var (s', r) := Launched(l, repos, sessionOf, s, call);
            r.Err? && s'.sessions == s.sessions && s'.launches == s.launches[call.operation := FailedBeforeRunning]
  {
    hide Provisioned;
    hide ReadyEvents;
  }

  /** Exactly when a launch leaves an operation recorded as failed before running whose session is there:
      the session was there before, or this launch started it and then could not record it. */
  lemma SessionHiddenExactlyWhen(l: Layout, repos: map<string, Repo>, sessionOf: string -> string, s: State, call: Call)
    ensures var (s', _) := Launched(l, repos, sessionOf, s, call);
            && call.operation in s'.launches
            && (s'.launches[call.operation] == FailedBeforeRunning && sessionOf(call.operation) in s'.sessions
                <==> sessionOf(call.operation) in s.sessions
                     || (Provisioned(l, repos, s.world, call, |call.repoNames|).error.None? && call.tmux.StartsUnrecorded?))
  {
    hide Provisioned;
    hide ReadyEvents;
  }

  // ---- Which directories a started session has ------------------------------------

  /** The directories that the launch itself made: those of the allocations that did not reuse. */
  function Made(l: Layout, call: Call, done: seq<Allocation>): set<string>
    requires |done| <= |call.repoNames|
  {
    set i | 0 <= i < |done| && done[i].status != Reused :: Target(l, call.operation, call.repoNames[i])
  }

  /** The paths that the other actors made before allocation `n`. */
  function MadeByOthers(l: Layout, repos: map<string, Repo>, w: World, call: Call, n: nat): set<string>
    requires n <= |call.repoNames|
  {
    if n == 0 then {}
    else
      var before := Provisioned(l, repos, w, call, n - 1).world;
      MadeByOthers(l, repos, w, call, n - 1) + (call.others(n - 1, before).paths - before.paths)
  }

  /** Where the paths that exist after a full provisioning come from. */
  lemma {:induction false} PathsAfter(l: Layout, repos: map<string, Repo>, w: World, call: Call, n: nat)
    requires call.Peaceful() && n <= |call.repoNames| && Provisioned(l, repos, w, call, n).error.None?
    ensures var p := Provisioned(l, repos, w, call, n);
            p.world.paths == w.paths + MadeByOthers(l, repos, w, call, n) + Made(l, call, p.done)
  {
    hide Allocate;
    hide Preserves;
    if n > 0 {
      var before, after := Provisioned(l, repos, w, call, n - 1), Provisioned(l, repos, w, call, n);
      var between, name := call.others(n - 1, before.world), call.repoNames[n - 1];
      PathsAfter(l, repos, w, call, n - 1);
      assert Preserves(before.world, between);
      PreservesPaths(before.world, between);
      AllocatedPaths(l, repos, between, call.operation, name, call.BaseRef(n - 1), call.lucks(n - 1));
      var a := after.done[n - 1];
      assert after.done == before.done + [a];
      MadeOneMore(l, call, before.done, a);
      var earlier, others := Made(l, call, before.done), MadeByOthers(l, repos, w, call, n - 1);
      assert MadeByOthers(l, repos, w, call, n) == others + (between.paths - before.world.paths);
      hide Made;
      hide MadeByOthers;
      PathsAddUp(w.paths, others, earlier, before.world.paths, between.paths,
                 if a.status != Reused then {Target(l, call.operation, name)} else {}, after.world.paths);
    }
  }

  lemma PathsAddUp(old_: set<string>, others: set<string>, made: set<string>, before: set<string>, between: set<string>,
                   more: set<string>, after: set<string>)
    requires before == old_ + others + made && before <= between && after == between + more
    ensures after == old_ + (others + (between - before)) + (made + more)
  {
  }

  lemma PreservesPaths(a: World, b: World)
    requires Preserves(a, b)
    ensures a.paths <= b.paths && a.git.Keys == b.git.Keys
  {
  }

  lemma MadeOneMore(l: Layout, call: Call, done: seq<Allocation>, a: Allocation)
    requires |done| < |call.repoNames|
    ensures Made(l, call, done + [a])
         == Made(l, call, done) + if a.status != Reused then {Target(l, call.operation, call.repoNames[|done|])} else {}
  {
    var more := done + [a];
    assert forall i :: 0 <= i < |done| ==> more[i] == done[i];
  }

  /** A started session finds every directory if those of its reused worktrees were there at launch or
      something made them meanwhile: the launch itself does not look. */
  lemma SessionDirectoriesByReuse(l: Layout, repos: map<string, Repo>, sessionOf: string -> string, s: State, call: Call)
    requires call.Peaceful()
    requires Launched(l, repos, sessionOf, s, call).0.sessions != s.sessions
    ensures var s' := Launched(l, repos, sessionOf, s, call).0;
            var n := |call.repoNames|;
            var done := Provisioned(l, repos, s.world, call, n).done;
            && |done| == n
            && ((forall i :: 0 <= i < n ==> Present(l, s'.world, call.operation, call.repoNames[i]))
                <==> forall i :: 0 <= i < n && done[i].status == Reused ==>
                       Target(l, call.operation, call.repoNames[i])
                         in s.world.paths + MadeByOthers(l, repos, s.world, call, n) + Made(l, call, done))
  {
    hide Provisioned;
    hide MadeByOthers;
    PathsAfter(l, repos, s.world, call, |call.repoNames|);
    var done := Provisioned(l, repos, s.world, call, |call.repoNames|).done;
    assert forall i :: 0 <= i < |done| && done[i].status != Reused ==> Target(l, call.operation, call.repoNames[i]) in Made(l, call, done);
  }

  /** Git lists the operation's branch of one repository in both worlds alike. */
  predicate SameCheckout(l: Layout, operation: string, name: string, a: World, b: World) {
    name in a.git && name in b.git
    && CheckedOut(a.git[name].worktrees, l.branchOf(operation, name)) == CheckedOut(b.git[name].worktrees, l.branchOf(operation, name))
  }

  /** The other actors keep off this operation: they neither make its directories nor check out its
      branches. */
  ghost predicate Aloof(l: Layout, call: Call) {
    forall i, w: World, k :: 0 <= k < |call.repoNames| && call.repoNames[k] in w.git ==>
      KeepsOff(l, call.operation, call.repoNames[k], w, call.others(i, w))
  }

  predicate KeepsOff(l: Layout, operation: string, name: string, w: World, w': World) {
    SameCheckout(l, operation, name, w, w') && (Present(l, w', operation, name) ==> Present(l, w, operation, name))
  }

  /** The classifier does not say ready of the operation's worktree in the repository. */
  predicate Unready(l: Layout, w: World, operation: string, name: string) {
    name in w.git && Classify(l, w, operation, name, ExistingResource(w, operation, name)) != Ready
  }

  lemma ReadyIsAtItsPath(l: Layout, w: World, operation: string, name: string)
    requires name in w.git
    ensures Unready(l, w, operation, name) <==> !AtItsPath(l, w, operation, name)
  {
    hide CheckedOut;
  }

  lemma SameCheckoutSamePath(l: Layout, operation: string, name: string, a: World, b: World)
    requires SameCheckout(l, operation, name, a, b)
    ensures AtItsPath(l, a, operation, name) == AtItsPath(l, b, operation, name)
  {
  }

  /** The launch will make this directory: it is that of a repository, among the first `n`, that is not
      ready beforehand. */
  predicate WillBeMade(l: Layout, w: World, call: Call, n: nat, target: string)
    requires n <= |call.repoNames|
  {
    exists j :: 0 <= j < n && Target(l, call.operation, call.repoNames[j]) == target && Unready(l, w, call.operation, call.repoNames[j])
  }

  lemma WillBeMadeStep(l: Layout, w: World, call: Call, n: nat, target: string)
    requires 0 < n <= |call.repoNames|
    ensures WillBeMade(l, w, call, n, target) <==>
      || WillBeMade(l, w, call, n - 1, target)
      || (Target(l, call.operation, call.repoNames[n - 1]) == target && Unready(l, w, call.operation, call.repoNames[n - 1]))
  {
    hide Unready;
    hide Target;
    if WillBeMade(l, w, call, n - 1, target) {
      var j :| 0 <= j < n - 1 && Target(l, call.operation, call.repoNames[j]) == target && Unready(l, w, call.operation, call.repoNames[j]);
      assert 0 <= j < n;
    }
  }

  /** After `n` repositories, of the directories there at launch and those to be made exactly the first
      `n` exist; and a checkout that changed has its directory. */
  ghost predicate Foretold(l: Layout, w: World, call: Call, n: nat, w': World, name: string)
    requires n <= |call.repoNames|
  {
    && (Present(l, w', call.operation, name) <==>
          Present(l, w, call.operation, name) || WillBeMade(l, w, call, n, Target(l, call.operation, name)))
    && (SameCheckout(l, call.operation, name, w, w') || Present(l, w', call.operation, name))
  }

  lemma ForetoldMeanwhile(l: Layout, w: World, call: Call, n: nat, before: World, between: World, name: string)
    requires n <= |call.repoNames| && Foretold(l, w, call, n, before, name)
    requires before.paths <= between.paths && KeepsOff(l, call.operation, name, before, between)
    ensures Foretold(l, w, call, n, between, name)
  {
    hide CheckedOut;
    hide WillBeMade;
  }

  /** One allocation, seen from one requested repository. */
  lemma ForetoldStep(l: Layout, repos: map<string, Repo>, w: World, call: Call, n: nat, between: World, name: string)
    requires 0 < n <= |call.repoNames| && name in w.git && name in between.git && w.git.Keys == between.git.Keys
    requires Allocate(l, repos, between, call.operation, call.repoNames[n - 1], call.BaseRef(n - 1), call.lucks(n - 1)).1.Ok?
    requires call.repoNames[n - 1] in w.git ==> Foretold(l, w, call, n - 1, between, call.repoNames[n - 1])
    requires Foretold(l, w, call, n - 1, between, name)
    ensures Foretold(l, w, call, n,
                     Allocate(l, repos, between, call.operation, call.repoNames[n - 1], call.BaseRef(n - 1), call.lucks(n - 1)).0, name)
  {
    var m := call.repoNames[n - 1];
    AllocationEffect(l, repos, between, call.operation, m, call.BaseRef(n - 1), call.lucks(n - 1));
    AllocatedPaths(l, repos, between, call.operation, m, call.BaseRef(n - 1), call.lucks(n - 1));
    hide Allocate;
    hide CheckedOut;
    hide Classify;
    hide WillBeMade;
    WillBeMadeStep(l, w, call, n, Target(l, call.operation, name));
    ReadyIsAtItsPath(l, w, call.operation, m);
    hide AtItsPath;
    hide Unready;
    if SameCheckout(l, call.operation, m, w, between) {
      SameCheckoutSamePath(l, call.operation, m, w, between);
    }
  }

  lemma {:induction false} ProvisionedAsForetold(l: Layout, repos: map<string, Repo>, w: World, call: Call, n: nat, name: string)
    requires call.Peaceful() && Aloof(l, call) && n <= |call.repoNames| && Provisioned(l, repos, w, call, n).error.None?
    requires name in call.repoNames && name in w.git
    ensures Foretold(l, w, call, n, Provisioned(l, repos, w, call, n).world, name)
    ensures Provisioned(l, repos, w, call, n).world.git.Keys == w.git.Keys
  {
    hide Allocate;
    hide Preserves;
    hide Foretold;
    hide KeepsOff;
    if n == 0 {
      NothingForetold(l, w, call, name);
    } else {
      var before := Provisioned(l, repos, w, call, n - 1).world;
      var between, m := call.others(n - 1, before), call.repoNames[n - 1];
      ProvisionedAsForetold(l, repos, w, call, n - 1, name);
      assert Preserves(before, between);
      PreservesPaths(before, between);
      AllocationEffect(l, repos, between, call.operation, m, call.BaseRef(n - 1), call.lucks(n - 1));
      ProvisionedAsForetold(l, repos, w, call, n - 1, m);
      var k :| 0 <= k < |call.repoNames| && call.repoNames[k] == name;
      assert KeepsOff(l, call.operation, call.repoNames[k], before, between);
      assert KeepsOff(l, call.operation, call.repoNames[n - 1], before, between);
      ForetoldMeanwhile(l, w, call, n - 1, before, between, name);
      ForetoldMeanwhile(l, w, call, n - 1, before, between, m);
      ForetoldStep(l, repos, w, call, n, between, name);
    }
  }

  lemma NothingForetold(l: Layout, w: World, call: Call, name: string)
    requires name in w.git
    ensures Foretold(l, w, call, 0, w, name)
  {
    hide CheckedOut;
  }

  /** Exactly when a started session finds every directory, as can be seen before the launch: each is there,
      or is that of a requested repository whose worktree the classifier does not call ready. */
  lemma SessionHasItsDirectoriesExactlyWhen(l: Layout, repos: map<string, Repo>, sessionOf: string -> string, s: State, call: Call)
    requires call.Peaceful() && Aloof(l, call)
    requires Launched(l, repos, sessionOf, s, call).0.sessions != s.sessions
    ensures var s' := Launched(l, repos, sessionOf, s, call).0;
            (forall i :: 0 <= i < |call.repoNames| ==> Present(l, s'.world, call.operation, call.repoNames[i]))
            <==> forall i :: 0 <= i < |call.repoNames| ==>
                   || Present(l, s.world, call.operation, call.repoNames[i])
                   || WillBeMade(l, s.world, call, |call.repoNames|, Target(l, call.operation, call.repoNames[i]))
  {
    hide Provisioned;
    hide Present;
    hide WillBeMade;
    var n, world := |call.repoNames|, Launched(l, repos, sessionOf, s, call).0.world;
    forall i | 0 <= i < n
      ensures Present(l, world, call.operation, call.repoNames[i])
              <==> Present(l, s.world, call.operation, call.repoNames[i])
                   || WillBeMade(l, s.world, call, n, Target(l, call.operation, call.repoNames[i]))
    {
      ProvisionedKnown(l, repos, s.world, call, n, i);
      ProvisionedAsForetold(l, repos, s.world, call, n, call.repoNames[i]);
    }
  }

  /** Every repository provisioned is one that is known. */
  lemma {:induction false} ProvisionedKnown(l: Layout, repos: map<string, Repo>, w: World, call: Call, n: nat, i: nat)
    requires call.Peaceful() && i < n <= |call.repoNames| && Provisioned(l, repos, w, call, n).error.None?
    ensures call.repoNames[i] in w.git
  {
    hide Allocate;
    hide Preserves;
    KeysProvisioned(l, repos, w, call, n - 1);
    if i == n - 1 {
      var before := Provisioned(l, repos, w, call, n - 1).world;
      var between := call.others(n - 1, before);
      assert Preserves(before, between);
      PreservesPaths(before, between);
      AllocationEffect(l, repos, between, call.operation, call.repoNames[i], call.BaseRef(i), call.lucks(i));
    } else {
      ProvisionedKnown(l, repos, w, call, n - 1, i);
    }
  }

  lemma {:induction false} KeysProvisioned(l: Layout, repos: map<string, Repo>, w: World, call: Call, n: nat)
    requires call.Peaceful() && n <= |call.repoNames| && Provisioned(l, repos, w, call, n).error.None?
    ensures Provisioned(l, repos, w, call, n).world.git.Keys == w.git.Keys
  {
    hide Allocate;
    hide Preserves;
    if n > 0 {
      KeysProvisioned(l, repos, w, call, n - 1);
      var between := call.others(n - 1, Provisioned(l, repos, w, call, n - 1).world);
      assert Preserves(Provisioned(l, repos, w, call, n - 1).world, between);
      PreservesPaths(Provisioned(l, repos, w, call, n - 1).world, between);
      AllocationEffect(l, repos, between, call.operation, call.repoNames[n - 1], call.BaseRef(n - 1), call.lucks(n - 1));
    }
  }

  /** So a session is started in a directory that does not exist: one repository, whose only worktree
      was deleted by hand and is still listed as prunable. */
  lemma SessionWithoutItsDirectory(l: Layout, sessionOf: string -> string, operation: string)
    ensures var call := Call(operation, ["r"], map[], _ => Luck(true, Done, 0), (_, w) => w, Starts);
            var s := State(DeletedByHand(l, operation), map[], {}, map[]);
            var (s', r) := Launched(l, ONE_REPO, sessionOf, s, call);
            && r.Ok? && s'.sessions == {sessionOf(operation)} && s'.launches[operation] == Running
            && !Present(l, s'.world, operation, "r")
  {
    var call := Call(operation, ["r"], map[], _ => Luck(true, Done, 0), (_, w) => w, Starts);
    var w := DeletedByHand(l, operation);
    DeletedWorktreeIsReused(l, operation, Luck(true, Done, 0));
    assert call.BaseRef(0) == None;
    assert Provisioned(l, ONE_REPO, w, call, 0) == Progress(w, [], None);
    assert Provisioned(l, ONE_REPO, w, call, 1).world == w && Provisioned(l, ONE_REPO, w, call, 1).error.None?;
  }

  // ---- The host -------------------------------------------------------------------

  class HostLauncher {
    const l: Layout
    const repos: map<string, Repo>
    const sessionOf: string -> string
    const allocator: Allocator
    var launches: map<string, LaunchState>
    var sessions: set<string>
    var events: map<string, seq<Event>>

    ghost predicate Valid()
      reads this
    {
      allocator.l == l && allocator.repos == repos
    }

    ghost function Now(): State
      reads this, allocator
    {
      State(allocator.world, launches, sessions, events)
    }

    constructor (allocator: Allocator, sessionOf: string -> string)
      ensures Valid() && this.allocator == allocator && this.sessionOf == sessionOf
      ensures l == allocator.l && repos == allocator.repos
      ensures Now() == State(allocator.world, map[], {}, map[])
    {
      this.allocator := allocator;
      this.sessionOf := sessionOf;
      l, repos := allocator.l, allocator.repos;
      launches, sessions, events := map[], {}, map[];
    }

    method Append(operation: string, event: Event)
      modifies this`events
      ensures Now() == Logged(old(Now()), operation, [event])
    {
      var log := if operation in events then events[operation] else [];
      events := events[operation := log + [event]];
    }

    method RecordFailedAttempt(call: Call, phase: LaunchPhase, done: seq<Allocation>)
      requires |done| <= |call.repoNames|
      modifies this`events, this`launches
      ensures Now() == FailedAttempt(old(Now()), call, phase, done)
    {
      launches := launches[call.operation := FailedBeforeRunning];
      Append(call.operation, LaunchFailed(phase, call.repoNames[..|done|], call.repoNames));
    }

    /** The `try` block of `prepare_host_resources`. */
    method ProvisionWorktrees(call: Call) returns (done: seq<Allocation>, error: Option<Error>)
      requires Valid() && call.operation in events
      modifies this`events, allocator
      ensures Valid() && Provisioned(l, repos, old(allocator.world), call, |call.repoNames|) == Progress(allocator.world, done, error)
      ensures Now() == Logged(old(Now()), call.operation, ReadyEvents(call, done)).(world := allocator.world)
    {
      hide Allocate;
      hide Logged;
      ghost var start := Now();
      LoggedNothing(start, call.operation);
      done := [];
      for n := 0 to |call.repoNames|
        invariant Valid()
        invariant Provisioned(l, repos, start.world, call, n) == Progress(allocator.world, done, None)
        invariant Now() == Logged(start, call.operation, ReadyEvents(call, done)).(world := allocator.world)
      {
        allocator.world := call.others(n, allocator.world);
        var a := allocator.AllocateWorktree(call.operation, call.repoNames[n], call.BaseRef(n), call.lucks(n));
        ghost var reached := Now();
        assert reached == Logged(start, call.operation, ReadyEvents(call, done)).(world := allocator.world);
        if a.Err? {
          ProvisionedStops(l, repos, start.world, call, n + 1);
          return done, Some(a.error);
        }
        ReadyOneMore(call, done, a.value);
        LoggedOneMore(start, call.operation, ReadyEvents(call, done), WorktreeReady(call.repoNames[n], a.value.status), allocator.world);
        done := done + [a.value];
        Append(call.operation, WorktreeReady(call.repoNames[n], a.value.status));
      }
      error := None;
    }

    /** `prepare_host_resources` */
    method PrepareHostResources(call: Call) returns (r: Result<seq<Allocation>, LaunchPhase>)
      requires Valid()
      modifies this`events, this`launches, allocator
      ensures Valid() && (Now(), r) == Prepared(l, repos, old(Now()), call)
      ensures r.Ok? ==> |r.value| == |call.repoNames|
    {
      hide Provisioned;
      hide ReadyEvents;
      if call.operation !in launches {
        launches := launches[call.operation := Launching];
      }
      Append(call.operation, LaunchStarted(call.repoNames));
      assert Now() == Opened(old(Now()), call);
      var done, error := ProvisionWorktrees(call);
      if error.Some? {
        RecordFailedAttempt(call, WorktreesPhase, done);
        return Err(WorktreesPhase);
      }
      r := Ok(done);
    }

    /** `start_host_session` */
    method StartHostSession(call: Call, done: seq<Allocation>) returns (r: Result<string, LaunchPhase>)
      requires Valid() && |done| <= |call.repoNames|
      modifies this`events, this`launches, this`sessions
      ensures Valid() && (Now(), r) == SessionStarted(sessionOf, old(Now()), call, done)
    {
      var name := sessionOf(call.operation);
      if call.tmux.Refuses? || name in sessions {
        RecordFailedAttempt(call, TmuxPhase, done);
        return Err(TmuxPhase);
      }
      sessions := sessions + {name};
      if call.tmux.StartsUnrecorded? {
        RecordFailedAttempt(call, TmuxPhase, done);
        return Err(TmuxPhase);
      }
      launches := launches[call.operation := Running];
      Append(call.operation, LaunchRunning(name));
      r := Ok(name);
    }

    /** `launch_host`. A session is added only when git lists every requested worktree, and then the operation
        is running exactly if the session could be recorded. */
    method LaunchHost(call: Call) returns (r: Result<string, LaunchPhase>)
      requires Valid()
      modifies this`events, this`launches, this`sessions, allocator
      ensures Valid() && (Now(), r) == Launched(l, repos, sessionOf, old(Now()), call)
      ensures l.Lawful() && call.Peaceful() ==>
                var done := Provisioned(l, repos, old(allocator.world), call, |call.repoNames|).done;
                && Preserves(old(allocator.world), allocator.world)
                && (sessions != old(sessions) ==>
                      && |done| == |call.repoNames|
                      && forall i :: 0 <= i < |call.repoNames| ==>
                           Finished(l, repos, allocator.world, call.operation, call.repoNames[i], done[i].resource, done[i].worktree))
                && (r.Ok? <==> sessions != old(sessions) && call.tmux.Starts?)
    {
      hide Preserves;
      hide Finished;
      hide Provisioned;
      if l.Lawful() && call.Peaceful() {
        SessionNeedsEveryWorktree(l, repos, sessionOf, Now(), call);
      }
      var prepared := PrepareHostResources(call);
      if prepared.Err? {
        return Err(prepared.error);
      }
      r := StartHostSession(call, prepared.value);
    }
  }

  /** Once a repository has refused, the loop is over. */
  lemma {:induction false} ProvisionedStops(l: Layout, repos: map<string, Repo>, w: World, call: Call, n: nat)
    requires n <= |call.repoNames| && Provisioned(l, repos, w, call, n).error.Some?
    ensures Provisioned(l, repos, w, call, |call.repoNames|) == Provisioned(l, repos, w, call, n)
    decreases |call.repoNames| - n
  {
    hide Allocate;
    if n < |call.repoNames| {
      ProvisionedStops(l, repos, w, call, n + 1);
    }
  }
}
