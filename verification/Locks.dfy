/** `agentbox/locks.py`: the lock file of one repository under every interleaving of acquisitions,
    with failing writes and crashes at any point. */
module Locks {
  import opened Prelude
  import opened Porcelain

  /** One call of `acquire_repo_lock`. */
  type Pid = nat

  /** Where a call stands: polling; the file created but the token not written; inside the body;
      in the `finally` block, with or without the body having been entered; past the comparison;
      ended or crashed, with or without leaving the file behind. */
  datatype Phase =
    | Trying
    | Created
    | InBody
    | Leaving(entered: bool)
    | Unlinking
    | Over(leaked: bool)
    | Dead(leaked: bool)
  {
    predicate Holds() { Created? || InBody? || Leaving? || Unlinking? }

    /** Answerable for the lock file being there. */
    predicate Owns() { Holds() || (Over? && leaked) || (Dead? && leaked) }
  }

  datatype State = State(file: Option<string>, phase: map<Pid, Phase>)

  datatype Step =
    | TryCreate(p: Pid)
    | Timeout(p: Pid)
    | OpenFails(p: Pid)
    | WriteFails(p: Pid, written: nat)
    | WriteToken(p: Pid)
    | Leave(p: Pid)
    | Compare(p: Pid)
    | Unlink(p: Pid)
    | Crash(p: Pid)

  /** What `pid=... time=...` always is. Nothing here needs two calls' tokens to differ. */
  predicate GoodToken(t: string) {
    t != "" && !IsSpace(t[0]) && !IsSpace(t[|t| - 1])
  }

  ghost predicate GoodTokens(token: Pid -> string) {
    forall p :: GoodToken(token(p))
  }

  /** One step of one call; a step that is not the call's next one does nothing. A failed write ends
      in the second closing of the descriptor, which raises before the comparison. */
  function After(token: Pid -> string, s: State, step: Step): State {
    if step.p !in s.phase then s
    else
      var p, phase := step.p, s.phase[step.p];
      match step
      case TryCreate(_) =>
        if phase.Trying? && s.file.None? then State(Some(""), s.phase[p := Created]) else s
      case Timeout(_) =>
        if phase.Trying? && s.file.Some? then s.(phase := s.phase[p := Over(false)]) else s
      case OpenFails(_) =>
        if phase.Created? then s.(phase := s.phase[p := Leaving(false)]) else s
      case WriteFails(_, written) =>
        var text := token(p) + "\n";
        if phase.Created? then State(Some(if written <= |text| then text[..written] else text), s.phase[p := Over(true)]) else s
      case WriteToken(_) =>
        if phase.Created? then State(Some(token(p) + "\n"), s.phase[p := InBody]) else s
      case Leave(_) =>
        if phase.InBody? then s.(phase := s.phase[p := Leaving(true)]) else s
      case Compare(_) =>
        if !phase.Leaving? then s
        else if s.file.None? then s.(phase := s.phase[p := Over(false)])
        else if Strip(s.file.value) == token(p) then s.(phase := s.phase[p := Unlinking])
        else s.(phase := s.phase[p := Over(true)])
      case Unlink(_) =>
        if phase.Unlinking? then State(None, s.phase[p := Over(false)]) else s
      case Crash(_) =>
        if phase.Over? || phase.Dead? then s else s.(phase := s.phase[p := Dead(phase.Holds())])
  }

  function Run(token: Pid -> string, s: State, steps: seq<Step>): State
    decreases |steps|
  {
    if steps == [] then s else After(token, Run(token, s, steps[..|steps| - 1]), steps[|steps| - 1])
  }

  /** No lock file, and every call about to poll. */
  predicate Init(s: State) {
    s.file.None? && forall p :: p in s.phase ==> s.phase[p].Trying?
  }

  // ---- The invariant --------------------------------------------------------------

  /** At most one call answers for the file, and it is there exactly when one does. */
  ghost predicate OneOwner(s: State) {
    && (forall p, q :: p in s.phase && q in s.phase && s.phase[p].Owns() && s.phase[q].Owns() ==> p == q)
    && (s.file.Some? <==> exists p :: p in s.phase && s.phase[p].Owns())
  }

  /** What the file says while its owner is alive. */
  ghost predicate Written(token: Pid -> string, s: State) {
    forall p :: p in s.phase ==>
      match s.phase[p]
      case Created => s.file == Some("")
      case InBody => s.file == Some(token(p) + "\n")
      case Leaving(entered) => s.file == Some(if entered then token(p) + "\n" else "")
      case Unlinking => s.file == Some(token(p) + "\n")
      case _ => true
  }

  ghost predicate Inv(token: Pid -> string, s: State) {
    OneOwner(s) && Written(token, s)
  }

  lemma StripToken(t: string)
    requires GoodToken(t)
    ensures Strip(t + "\n") == t
  {
    var s := t + "\n";
    assert s[0] == t[0] && StripLeft(s) == s;
    assert s[|s| - 1] == '\n' && s[..|s| - 1] == t;
    assert StripRight(s) == StripRight(t) == t;
  }

  lemma EmptyIsNotAToken(t: string)
    requires GoodToken(t)
    ensures Strip("") != t
  {
  }

  lemma StepKeepsInv(token: Pid -> string, s: State, step: Step)
    requires GoodTokens(token) && Inv(token, s)
    ensures Inv(token, After(token, s, step))
  {
    hide Strip;
    if step.p in s.phase {
      assert GoodToken(token(step.p));
      StripToken(token(step.p));
      EmptyIsNotAToken(token(step.p));
      OwnerUnlessFree(s, step.p);
      StepKeepsOwner(token, s, step);
    }
  }

  /** While a call owns the file no other does; while there is no file nobody does. */
  lemma OwnerUnlessFree(s: State, p: Pid)
    requires OneOwner(s) && p in s.phase
    ensures s.phase[p].Owns() ==> s.file.Some? && forall q :: q in s.phase && q != p ==> !s.phase[q].Owns()
    ensures s.file.None? ==> forall q :: q in s.phase ==> !s.phase[q].Owns()
  {
  }

  lemma StepKeepsOwner(token: Pid -> string, s: State, step: Step)
    requires GoodTokens(token) && Inv(token, s) && step.p in s.phase
    requires Strip(token(step.p) + "\n") == token(step.p)
    ensures OneOwner(After(token, s, step))
  {
    hide Strip;
    var p, s' := step.p, After(token, s, step);
    OwnerUnlessFree(s, p);
    if s'.file.Some? {
      assert s.file.Some? || s'.phase[p].Owns();
      if s.file.Some? {
        var q :| q in s.phase && s.phase[q].Owns();
        assert s'.phase[q].Owns();
      }
    }
  }

  lemma {:induction false} RunKeepsInv(token: Pid -> string, s: State, steps: seq<Step>)
    requires GoodTokens(token) && Inv(token, s)
    ensures Inv(token, Run(token, s, steps))
    decreases |steps|
  {
    hide Inv;
    if steps != [] {
      RunKeepsInv(token, s, steps[..|steps| - 1]);
      StepKeepsInv(token, Run(token, s, steps[..|steps| - 1]), steps[|steps| - 1]);
    }
  }

  lemma InitInv(token: Pid -> string, s: State)
    requires Init(s)
    ensures Inv(token, s)
  {
  }

  // ---- The theorems ---------------------------------------------------------------

  /** In every reachable state at most one call is inside the body, and from creating the file until
      removing it no other call holds it. The tokens play no part in it. */
  lemma MutualExclusion(token: Pid -> string, s: State, steps: seq<Step>, p: Pid, q: Pid)
    requires GoodTokens(token) && Init(s)
    requires var r := Run(token, s, steps); p in r.phase && q in r.phase && r.phase[p].Holds() && r.phase[q].Holds()
    ensures p == q
  {
    InitInv(token, s);
    RunKeepsInv(token, s, steps);
  }

  /** The lock is free exactly when no call holds it and none left it behind. */
  lemma FreeExactlyWhen(token: Pid -> string, s: State, steps: seq<Step>)
    requires GoodTokens(token) && Init(s)
    ensures var r := Run(token, s, steps); r.file.None? <==> forall p :: p in r.phase ==> !r.phase[p].Owns()
  {
    InitInv(token, s);
    RunKeepsInv(token, s, steps);
  }

  /** A call leaves its file behind exactly when it crashes while holding it, or when the token could
      not be written; a body that was entered and left always removes it. */
  lemma LeakExactlyWhen(token: Pid -> string, s: State, steps: seq<Step>, step: Step, p: Pid)
    requires GoodTokens(token) && Init(s)
    requires p in Run(token, s, steps).phase && Run(token, s, steps).phase[p].Holds()
    ensures var r := Run(token, s, steps);
            var r' := After(token, r, step);
            p in r'.phase && (r'.phase[p].Owns() && !r'.phase[p].Holds() <==>
              step == Crash(p)
              || (step.WriteFails? && step.p == p && r.phase[p].Created?)
              || (step == Compare(p) && r.phase[p] == Leaving(false)))
  {
    hide Strip;
    InitInv(token, s);
    RunKeepsInv(token, s, steps);
    assert GoodToken(token(p));
    StripToken(token(p));
    EmptyIsNotAToken(token(p));
  }

  /** Once left behind, nobody holds the lock ever again: every later call can only time out. */
  lemma {:induction false} LeakedForever(token: Pid -> string, s: State, steps: seq<Step>, p: Pid)
    requires GoodTokens(token) && Inv(token, s)
    requires p in s.phase && s.phase[p].Owns() && !s.phase[p].Holds()
    ensures var r := Run(token, s, steps);
            p in r.phase && r.phase[p] == s.phase[p] && r.file == s.file && forall q :: q in r.phase ==> !r.phase[q].Holds()
    decreases |steps|
  {
    hide Strip;
    if steps != [] {
      var before := Run(token, s, steps[..|steps| - 1]);
      LeakedForever(token, s, steps[..|steps| - 1], p);
      RunKeepsInv(token, s, steps[..|steps| - 1]);
      assert before.file.Some?;
    }
  }

  /** How a call leaves each stage: it creates the file only where there is none, gives up only where there is
      one, enters its body only with its whole token written, and removes the file only on reading its token. */
  lemma StagesLeftExactlyWhen(token: Pid -> string, s: State, step: Step, p: Pid)
    requires p in s.phase
    ensures var s' := After(token, s, step);
            && p in s'.phase && s'.phase.Keys == s.phase.Keys
            && (step.p != p ==> s'.phase[p] == s.phase[p])
            && match s.phase[p]
               case Trying =>
                 && (s'.phase[p] == Created <==> step == TryCreate(p) && s.file.None?)
                 && (s'.phase[p].Over? <==> step == Timeout(p) && s.file.Some?)
                 && (s'.phase[p].Dead? <==> step == Crash(p))
               case Created =>
                 && (s'.phase[p] == InBody <==> step == WriteToken(p))
                 && (s'.phase[p].Over? <==> step.p == p && step.WriteFails?)
                 && (s'.phase[p].Leaving? <==> step == OpenFails(p))
               case InBody => s'.phase[p] == Leaving(true) <==> step == Leave(p)
               case Leaving(_) =>
                 && (s'.phase[p] == Unlinking <==> step == Compare(p) && s.file.Some? && Strip(s.file.value) == token(p))
                 && (s'.phase[p].Over? <==> step == Compare(p) && (s.file.None? || Strip(s.file.value) != token(p)))
               case Unlinking => s'.phase[p] == Over(false) <==> step == Unlink(p)
               case Over(_) => s'.phase[p] == s.phase[p]
               case Dead(_) => s'.phase[p] == s.phase[p]
  {
  }

  /** Exactly when the file changes, and what it says then: a failed write leaves as much of the token's line as
      was written. */
  lemma FileChangesExactlyWhen(token: Pid -> string, s: State, step: Step)
    requires GoodTokens(token) && Inv(token, s) && step.p in s.phase
    ensures var s', line, phase := After(token, s, step), token(step.p) + "\n", s.phase[step.p];
            match step
            case TryCreate(_) => s'.file == if phase.Trying? && s.file.None? then Some("") else s.file
            case WriteToken(_) => s'.file == if phase.Created? then Some(line) else s.file
            case WriteFails(_, n) =>
              if phase.Created? then s'.file.Some? && s'.file.value <= line && |s'.file.value| == (if n < |line| then n else |line|)
              else s'.file == s.file
            case Unlink(_) => s'.file == if phase.Unlinking? then None else s.file
            case _ => s'.file == s.file
  {
  }

  // ---- The polling loop -----------------------------------------------------------

  predicate Others(p: Pid, steps: seq<Step>) {
    forall i :: 0 <= i < |steps| ==> steps[i].p != p
  }

  lemma {:induction false} OthersLeaveIt(token: Pid -> string, s: State, steps: seq<Step>, p: Pid)
    requires p in s.phase && Others(p, steps)
    ensures p in Run(token, s, steps).phase && Run(token, s, steps).phase[p] == s.phase[p]
    decreases |steps|
  {
    hide Strip;
    if steps != [] {
      OthersLeaveIt(token, s, steps[..|steps| - 1], p);
    }
  }

  lemma {:induction false} RunConcat(token: Pid -> string, s: State, a: seq<Step>, b: seq<Step>)
    ensures Run(token, s, a + b) == Run(token, Run(token, s, a), b)
    decreases |b|
  {
    if b == [] {
      assert a + b == a;
    } else {
      assert (a + b)[..|a + b| - 1] == a + b[..|b| - 1];
      RunConcat(token, s, a, b[..|b| - 1]);
    }
  }

  /** The acquisition loop: poll, and between two polls let the others do `between[i]`; the deadline
      passes after the last. `steps` is what everybody did. It creates the file at the first poll
      that finds none and times out only if every poll found one. */
  method Acquire(token: Pid -> string, s: State, p: Pid, between: seq<seq<Step>>)
    returns (r: State, steps: seq<Step>, polls: nat)
    requires GoodTokens(token) && Inv(token, s) && p in s.phase && s.phase[p].Trying?
    requires forall i :: 0 <= i < |between| ==> Others(p, between[i])
    ensures r == Run(token, s, steps) && Inv(token, r)
    ensures p in r.phase && (r.phase[p].InBody? || r.phase[p] == Over(false))
    ensures r.phase[p].InBody? ==> r.file == Some(token(p) + "\n") && forall q :: q in r.phase && q != p ==> !r.phase[q].Holds()
    ensures polls <= |between|
    ensures forall i :: 0 <= i < polls ==> Run(token, s, Waited(p, between, i)).file.Some?
    ensures r.phase[p].InBody? <==> Run(token, s, Waited(p, between, polls)).file.None?
    ensures !r.phase[p].InBody? ==> polls == |between|
  {
    hide *;
    polls, r, steps := 0, s, [];
    WaitedFirst(token, s, p, between);
    while true
      invariant polls <= |between|
      invariant steps == Waited(p, between, polls) && r == Run(token, s, steps) && Inv(token, r)
      invariant p in r.phase && r.phase[p] == Trying
      invariant forall i :: 0 <= i < polls ==> Run(token, s, Waited(p, between, i)).file.Some?
      decreases |between| - polls
    {
      if r.file.None? {
        PollTakes(token, s, steps, p);
        steps := steps + [TryCreate(p), WriteToken(p)];
        r := Run(token, s, steps);
        return;
      }
      if polls == |between| {
        PollTimesOut(token, s, steps, p);
        steps := steps + [Timeout(p)];
        r := Run(token, s, steps);
        return;
      }
      PollWaits(token, s, steps, p, between, polls);
      steps := steps + between[polls];
      r := Run(token, s, steps);
      polls := polls + 1;
    }
  }

  lemma WaitedFirst(token: Pid -> string, s: State, p: Pid, between: seq<seq<Step>>)
    ensures Waited(p, between, 0) == [] && Run(token, s, []) == s
  {
  }

  /** The poll that finds no file. */
  lemma PollTakes(token: Pid -> string, s: State, steps: seq<Step>, p: Pid)
    requires GoodTokens(token) && Inv(token, s)
    requires var r := Run(token, s, steps); p in r.phase && r.phase[p] == Trying && r.file.None?
    ensures var r := Run(token, s, steps + [TryCreate(p), WriteToken(p)]);
            && Inv(token, r) && p in r.phase && r.phase[p] == InBody && r.file == Some(token(p) + "\n")
            && forall q :: q in r.phase && q != p ==> !r.phase[q].Holds()
  {
    hide Inv;
    hide Run;
    RunTwo(token, s, steps, TryCreate(p), WriteToken(p));
    RunKeepsInv(token, s, steps + [TryCreate(p), WriteToken(p)]);
    Alone(token, Run(token, s, steps + [TryCreate(p), WriteToken(p)]), p);
  }

  /** The last poll that finds one. */
  lemma PollTimesOut(token: Pid -> string, s: State, steps: seq<Step>, p: Pid)
    requires GoodTokens(token) && Inv(token, s)
    requires var r := Run(token, s, steps); p in r.phase && r.phase[p] == Trying && r.file.Some?
    ensures var r := Run(token, s, steps + [Timeout(p)]); Inv(token, r) && p in r.phase && r.phase[p] == Over(false)
  {
    hide Inv;
    hide Run;
    RunOne(token, s, steps, Timeout(p));
    RunKeepsInv(token, s, steps + [Timeout(p)]);
  }

  /** Any other: the others go on, and the call is still polling. */
  lemma PollWaits(token: Pid -> string, s: State, steps: seq<Step>, p: Pid, between: seq<seq<Step>>, i: nat)
    requires GoodTokens(token) && Inv(token, s) && i < |between| && Others(p, between[i]) && steps == Waited(p, between, i)
    requires var r := Run(token, s, steps); p in r.phase && r.phase[p] == Trying
    ensures steps + between[i] == Waited(p, between, i + 1)
    ensures var r := Run(token, s, steps + between[i]); Inv(token, r) && p in r.phase && r.phase[p] == Trying
  {
    hide Inv;
    hide Run;
    hide Others;
    RunConcat(token, s, steps, between[i]);
    OthersLeaveIt(token, Run(token, s, steps), between[i], p);
    RunKeepsInv(token, s, steps + between[i]);
  }

  /** What the others did before poll number `i`. */
  function Waited(p: Pid, between: seq<seq<Step>>, i: nat): seq<Step>
    requires i <= |between|
  {
    if i == 0 then [] else Waited(p, between, i - 1) + between[i - 1]
  }

  lemma RunTwo(token: Pid -> string, s: State, steps: seq<Step>, a: Step, b: Step)
    ensures Run(token, s, steps + [a, b]) == After(token, After(token, Run(token, s, steps), a), b)
  {
    hide After;
    assert (steps + [a, b])[..|steps| + 1] == steps + [a];
    assert (steps + [a])[..|steps|] == steps;
  }

  lemma RunOne(token: Pid -> string, s: State, steps: seq<Step>, a: Step)
    ensures Run(token, s, steps + [a]) == After(token, Run(token, s, steps), a)
  {
    hide After;
    assert (steps + [a])[..|steps|] == steps;
  }

  lemma Alone(token: Pid -> string, s: State, p: Pid)
    requires Inv(token, s) && p in s.phase && s.phase[p].Holds()
    ensures forall q :: q in s.phase && q != p ==> !s.phase[q].Holds()
  {
  }
}
