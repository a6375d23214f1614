/** `agentbox/worktrees.py` and `agentbox/reconcile.py`: the non-destructive allocator of one
    operation's worktree in one repository, and the report-only classifier written beside it.
    The repository lock makes one allocation one step. */
module Worktrees {
  import opened Prelude
  import opened Porcelain

  /** How names turn into paths and branches: `Path.resolve`, `branch_name`, `worktree_path`. */
  datatype Layout = Layout(
    resolve: string -> string,
    branchOf: (string, string) -> string,
    pathOf: (string, string) -> string)
  {
    ghost predicate Lawful() {
      forall p :: resolve(resolve(p)) == resolve(p)
    }
  }

  datatype Repo = Repo(name: string, path: string, defaultRef: string)

  /** The git state of one repository: local branches with their tips, remote-tracking refs,
      registered worktrees in listing order, and the commits that base references resolve to. */
  datatype Git = Git(
    locals: map<string, string>, remotes: set<string>, worktrees: seq<WorktreeInfo>, commits: map<string, string>)

  /** A `git_worktree` resource of the operation store. */
  datatype Resource = Resource(
    id: string, operation: string, repoName: string, canonicalPath: string, worktreePath: string, branch: string,
    baseRef: string, baseSha: string, status: Status)

  datatype Status = Reused | Reattached | Created

  /** Everything an allocation reads or writes. `paths` are the resolved paths that exist. */
  datatype World = World(git: map<string, Git>, paths: set<string>, store: map<string, Resource>)

  datatype Error =
    | RepoNotFound | LockTimeout | RefUnresolvable | BranchCheckedOutElsewhere | PathConflict | ResourceConflict
    | ResourceStale | ReattachFailed | RemoteTrackingConflict | CreateFailed | ResourceIdTaken

  datatype Allocation = Allocation(status: Status, resource: Resource, worktree: WorktreeInfo)

  /** How `git worktree add` ends; a failure may come after `-b` has made the branch. */
  datatype GitOutcome = Done | Failed | FailedAfterBranch

  /** Does the lock come free in time, how does the git command end, and where in the listing does
      git put the new worktree? */
  datatype Luck = Luck(lock: bool, git: GitOutcome, at: nat)

  function ResourceId(operation: string, repo: string): string {
    operation + ":" + repo + ":git-worktree"
  }

  /** `_existing_resource` */
  function ExistingResource(w: World, operation: string, repo: string): Option<Resource> {
    var id := ResourceId(operation, repo);
    if id in w.store && w.store[id].operation == operation then Some(w.store[id]) else None
  }

  /** `checked_out_branch_worktree`, `_checked_out_from` */
  function CheckedOut(worktrees: seq<WorktreeInfo>, branch: string): (r: Option<WorktreeInfo>)
    ensures r.Some? ==> r.value in worktrees && r.value.BranchName() == Some(branch)
    ensures r.None? ==> forall x :: x in worktrees ==> x.BranchName() != Some(branch)
  {
    if worktrees == [] then None
    else if worktrees[0].BranchName() == Some(branch) then Some(worktrees[0])
    else CheckedOut(worktrees[1..], branch)
  }

  /** `_registered_worktree_at`, `_registered_at`, and `is_registered_worktree` */
  function RegisteredAt(l: Layout, worktrees: seq<WorktreeInfo>, target: string): (r: Option<WorktreeInfo>)
    ensures r.Some? ==> r.value in worktrees && l.resolve(r.value.path) == l.resolve(target)
    ensures r.None? ==> forall x :: x in worktrees ==> l.resolve(x.path) != l.resolve(target)
  {
    if worktrees == [] then None
    else if l.resolve(worktrees[0].path) == l.resolve(target) then Some(worktrees[0])
    else RegisteredAt(l, worktrees[1..], target)
  }

  /** The details `_validate_existing_resource` compares. */
  predicate ResourceMatches(r: Resource, repo: Repo, branch: string, target: string) {
    r.repoName == repo.name && r.canonicalPath == repo.path && r.worktreePath == target && r.branch == branch
  }

  function Validated(l: Layout, r: Option<Resource>, repo: Repo, g: Git, branch: string, target: string, allowMissing: bool): Option<Error> {
    if r.None? then None
    else if !ResourceMatches(r.value, repo, branch, target) then Some(ResourceConflict)
    else if !allowMissing && RegisteredAt(l, g.worktrees, target).None? then Some(ResourceStale)
    else None
  }

  /** A new entry of the worktree listing. */
  function Listed(worktrees: seq<WorktreeInfo>, at: nat, info: WorktreeInfo): seq<WorktreeInfo> {
    var k := if at <= |worktrees| then at else |worktrees|;
    worktrees[..k] + [info] + worktrees[k..]
  }

  /** `-b`: the branch exists, at `tip`. */
  function BranchMade(w: World, name: string, branch: string, tip: string): World
    requires name in w.git
  {
    var g := w.git[name];
    w.(git := w.git[name := g.(locals := g.locals[branch := tip])])
  }

  function NewWorktree(l: Layout, branch: string, target: string, tip: string): WorktreeInfo {
    WorktreeInfo(l.resolve(target), Some(tip), Some("refs/heads/" + branch), false, false, None)
  }

  /** `git worktree add` on an existing branch: the path exists and is registered on the branch. */
  function WorktreeAdded(l: Layout, w: World, name: string, branch: string, target: string, at: nat): World
    requires name in w.git && branch in w.git[name].locals
  {
    var g := w.git[name];
    var info := NewWorktree(l, branch, target, g.locals[branch]);
    w.(git := w.git[name := g.(worktrees := Listed(g.worktrees, at, info))], paths := w.paths + {l.resolve(target)})
  }

  /** `_allocation_with_resource`, `_create_or_reuse_resource` */
  function WithResource(w: World, existing: Option<Resource>, operation: string, repo: Repo, branch: string, target: string,
                        baseRef: string, baseSha: string, status: Status, info: WorktreeInfo): (World, Result<Allocation, Error>)
  {
    if existing.Some? then (w, Ok(Allocation(status, existing.value, info)))
    else
      var id := ResourceId(operation, repo.name);
      if id in w.store then (w, Err(ResourceIdTaken))
      else
        var r := Resource(id, operation, repo.name, repo.path, target, branch, baseRef, baseSha, status);
        (w.(store := w.store[id := r]), Ok(Allocation(status, r, info)))
  }

  /** `allocate_worktree`: its specification. */
  function Allocate(l: Layout, repos: map<string, Repo>, w: World, operation: string, name: string,
                    baseRef: Option<string>, luck: Luck): (World, Result<Allocation, Error>)
  {
    if name !in repos || name !in w.git || repos[name].name != name then (w, Err(RepoNotFound))
    else if !luck.lock then (w, Err(LockTimeout))
    else
      var repo, g := repos[name], w.git[name];
      var ref := if baseRef.Some? && baseRef.value != "" then baseRef.value else repo.defaultRef;
      var branch, target := l.branchOf(operation, name), l.pathOf(operation, name);
      var existing := ExistingResource(w, operation, name);
      if ref !in g.commits then (w, Err(RefUnresolvable))
      else
        var sha := g.commits[ref];
        match CheckedOut(g.worktrees, branch)
        case Some(info) =>
          if l.resolve(info.path) != l.resolve(target) then (w, Err(BranchCheckedOutElsewhere))
          else
            (match Validated(l, existing, repo, g, branch, target, false)
             case Some(e) => (w, Err(e))
             case None => WithResource(w, existing, operation, repo, branch, target, ref, sha, Reused, info))
        case None =>
          if l.resolve(target) in w.paths && RegisteredAt(l, g.worktrees, target).None? then (w, Err(PathConflict))
          else if RegisteredAt(l, g.worktrees, target).Some? then (w, Err(PathConflict))
          else
            match Validated(l, existing, repo, g, branch, target, true)
            case Some(e) => (w, Err(e))
            case None =>
              if branch in g.locals then
                if luck.git != Done then (w, Err(ReattachFailed))
                else
                  WithResource(WorktreeAdded(l, w, name, branch, target, luck.at), existing, operation, repo, branch,
                               target, ref, sha, Reattached, NewWorktree(l, branch, target, g.locals[branch]))
              else if "origin/" + branch in g.remotes then (w, Err(RemoteTrackingConflict))
              else if luck.git == Failed then (w, Err(CreateFailed))
              else
                var w' := BranchMade(w, name, branch, sha);
                if luck.git == FailedAfterBranch then (w', Err(CreateFailed))
                else
                  WithResource(WorktreeAdded(l, w', name, branch, target, luck.at), existing, operation, repo, branch,
                               target, ref, sha, Created, NewWorktree(l, branch, target, sha))
  }

  // ---- reconcile.py ---------------------------------------------------------------

  datatype WorktreeState =
    | Ready | CheckedOutElsewhere | RegisteredDifferentBranch | UnregisteredPath
    | LocalBranchMissingWorktree | RemoteTrackingOnly | DurableResourceWithoutGitState | Missing

  /** `_worktree_state_and_action` on the probes `_reconcile_worktree` makes. */
  function Classify(l: Layout, w: World, operation: string, name: string, resource: Option<Resource>): WorktreeState
    requires name in w.git
  {
    var g, branch, target := w.git[name], l.branchOf(operation, name), l.pathOf(operation, name);
    var checkedOut := CheckedOut(g.worktrees, branch);
    if checkedOut.Some? then
      if l.resolve(checkedOut.value.path) == l.resolve(target) then Ready else CheckedOutElsewhere
    else if RegisteredAt(l, g.worktrees, target).Some? then RegisteredDifferentBranch
    else if l.resolve(target) in w.paths then UnregisteredPath
    else if branch in g.locals then LocalBranchMissingWorktree
    else if "origin/" + branch in g.remotes then RemoteTrackingOnly
    else if resource.Some? then DurableResourceWithoutGitState
    else Missing
  }

  /** Git has the branch checked out in some worktree. */
  predicate SomewhereCheckedOut(worktrees: seq<WorktreeInfo>, branch: string) {
    exists x :: x in worktrees && x.branchRef == Some("refs/heads/" + branch)
  }

  /** Git has some worktree registered at the path. */
  predicate SomethingRegistered(l: Layout, worktrees: seq<WorktreeInfo>, target: string) {
    exists x :: x in worktrees && l.resolve(x.path) == l.resolve(target)
  }

  lemma BranchNameExactlyWhen(x: WorktreeInfo, branch: string)
    ensures x.BranchName() == Some(branch) <==> x.branchRef == Some("refs/heads/" + branch)
  {
    assert ("refs/heads/" + branch)[..11] == "refs/heads/" && ("refs/heads/" + branch)[11..] == branch;
    if x.BranchName() == Some(branch) {
      assert x.branchRef.value == x.branchRef.value[..11] + x.branchRef.value[11..];
    }
  }

  /** What each answer of the classifier says about git, the paths and the resource. */
  lemma ClassifyMeans(l: Layout, w: World, operation: string, name: string, resource: Option<Resource>)
    requires name in w.git
    ensures var g, branch, target := w.git[name], l.branchOf(operation, name), l.pathOf(operation, name);
            var out, at, there := SomewhereCheckedOut(g.worktrees, branch), SomethingRegistered(l, g.worktrees, target), l.resolve(target) in w.paths;
            match Classify(l, w, operation, name, resource)
            case Ready => exists x :: x in g.worktrees && x.branchRef == Some("refs/heads/" + branch) && l.resolve(x.path) == l.resolve(target)
            case CheckedOutElsewhere => exists x :: x in g.worktrees && x.branchRef == Some("refs/heads/" + branch) && l.resolve(x.path) != l.resolve(target)
            case RegisteredDifferentBranch => !out && at
            case UnregisteredPath => !out && !at && there
            case LocalBranchMissingWorktree => !out && !at && !there && branch in g.locals
            case RemoteTrackingOnly => !out && !at && !there && branch !in g.locals && "origin/" + branch in g.remotes
            case DurableResourceWithoutGitState =>
              !out && !at && !there && branch !in g.locals && "origin/" + branch !in g.remotes && resource.Some?
            case Missing => !out && !at && !there && branch !in g.locals && "origin/" + branch !in g.remotes && resource.None?
  {
    var g, branch := w.git[name], l.branchOf(operation, name);
    forall x: WorktreeInfo ensures x.BranchName() == Some(branch) <==> x.branchRef == Some("refs/heads/" + branch) {
      BranchNameExactlyWhen(x, branch);
    }
    var checkedOut := CheckedOut(g.worktrees, branch);
    hide CheckedOut;
    hide RegisteredAt;
    if checkedOut.Some? {
      assert checkedOut.value in g.worktrees;
    }
  }

  /** Why an allocation that meets no bad luck is refused: an unknown repository, an unresolvable base, a
      state the classifier does not let it act on, or a resource about something else or of somebody else. */
  lemma RefusalMeans(l: Layout, repos: map<string, Repo>, w: World, operation: string, name: string, baseRef: Option<string>, at: nat)
    ensures var r := Allocate(l, repos, w, operation, name, baseRef, Luck(true, Done, at)).1;
            var known := name in repos && name in w.git && repos[name].name == name;
            if !known then r == Err(RepoNotFound)
            else if (if baseRef.Some? && baseRef.value != "" then baseRef.value else repos[name].defaultRef) !in w.git[name].commits then
              r == Err(RefUnresolvable)
            else
              var id := operation + ":" + name + ":git-worktree";
              var state := Classify(l, w, operation, name, ExistingResource(w, operation, name));
              var mine := id in w.store && w.store[id].operation == operation;
              var other := mine && !(w.store[id].repoName == name && w.store[id].canonicalPath == repos[name].path
                                     && w.store[id].worktreePath == l.pathOf(operation, name) && w.store[id].branch == l.branchOf(operation, name));
              match state
              case CheckedOutElsewhere => r == Err(BranchCheckedOutElsewhere)
              case RegisteredDifferentBranch => r == Err(PathConflict)
              case UnregisteredPath => r == Err(PathConflict)
              case RemoteTrackingOnly => r == Err(if other then ResourceConflict else RemoteTrackingConflict)
              case _ => if other then r == Err(ResourceConflict) else if !mine && id in w.store then r == Err(ResourceIdTaken) else r.Ok?
  {
    hide Listed;
    hide NewWorktree;
    if name in repos && name in w.git {
      var g, target := w.git[name], l.pathOf(operation, name);
      var checkedOut := CheckedOut(g.worktrees, l.branchOf(operation, name));
      if checkedOut.Some? && l.resolve(checkedOut.value.path) == l.resolve(target) {
        assert RegisteredAt(l, g.worktrees, target).Some?;
      }
    }
    hide CheckedOut;
    hide RegisteredAt;
  }

  /** What bad luck changes: without the lock nothing happens; a git command that fails where a worktree had to be added
      leaves everything as it was, or else the new branch alone; where none had to be, git's outcome does not count. */
  lemma BadLuckMeans(l: Layout, repos: map<string, Repo>, w: World, operation: string, name: string, baseRef: Option<string>, luck: Luck)
    requires name in repos && name in w.git && repos[name].name == name
    ensures var (w', r) := Allocate(l, repos, w, operation, name, baseRef, luck);
            var g, branch, target := w.git[name], l.branchOf(operation, name), l.pathOf(operation, name);
            var ref := if baseRef.Some? && baseRef.value != "" then baseRef.value else repos[name].defaultRef;
            var existing := ExistingResource(w, operation, name);
            var state := Classify(l, w, operation, name, existing);
            var ready := ref in g.commits && (existing.None? || ResourceMatches(existing.value, repos[name], branch, target));
            if !luck.lock then (w', r) == (w, Err(LockTimeout))
            else if ready && luck.git != Done && state == LocalBranchMissingWorktree then (w', r) == (w, Err(ReattachFailed))
            else if ready && luck.git != Done && state in {DurableResourceWithoutGitState, Missing} then
              r == Err(CreateFailed)
              && w' == (if luck.git == Failed then w else w.(git := w.git[name := g.(locals := g.locals[branch := g.commits[ref]])]))
            else (w', r) == Allocate(l, repos, w, operation, name, baseRef, Luck(true, Done, luck.at))
  {
    var g, target := w.git[name], l.pathOf(operation, name);
    var checkedOut := CheckedOut(g.worktrees, l.branchOf(operation, name));
    if checkedOut.Some? && l.resolve(checkedOut.value.path) == l.resolve(target) {
      assert RegisteredAt(l, g.worktrees, target).Some?;
    }
    hide CheckedOut;
    hide RegisteredAt;
    hide Listed;
    hide NewWorktree;
    hide WithResource;
    hide WorktreeAdded;
    hide ResourceMatches;
  }

  /** What the allocator does in each state the classifier can report. */
  predicate Agrees(state: WorktreeState, before: World, after: World, r: Result<Allocation, Error>) {
    match state
    case Ready => r.Ok? && r.value.status == Reused && after.git == before.git
    case CheckedOutElsewhere => r == Err(BranchCheckedOutElsewhere) && after == before
    case RegisteredDifferentBranch => r == Err(PathConflict) && after == before
    case UnregisteredPath => r == Err(PathConflict) && after == before
    case LocalBranchMissingWorktree => r.Ok? && r.value.status == Reattached
    case RemoteTrackingOnly => r == Err(RemoteTrackingConflict) && after == before
    case DurableResourceWithoutGitState => r.Ok? && r.value.status == Created
    case Missing => r.Ok? && r.value.status == Created
  }

  /** The operation has no resource for the repository and nobody took its id, or the one it has
      is about this repository, branch and path. */
  predicate ResourceFits(l: Layout, repos: map<string, Repo>, w: World, operation: string, name: string)
    requires name in repos
  {
    match ExistingResource(w, operation, name)
    case None => ResourceId(operation, name) !in w.store
    case Some(r) => ResourceMatches(r, repos[name], l.branchOf(operation, name), l.pathOf(operation, name))
  }

  /** With a fitting resource, a free lock, a resolvable base and git succeeding, the allocator does
      exactly what the classifier's state says; only where the classifier asks for an inspection
      of a durable resource without git state does it create. */
  lemma AllocatorAgreesWithClassifier(l: Layout, repos: map<string, Repo>, w: World, operation: string, name: string,
                                      baseRef: Option<string>, at: nat)
    requires name in repos && name in w.git && repos[name].name == name
    requires ResourceFits(l, repos, w, operation, name)
    requires (if baseRef.Some? && baseRef.value != "" then baseRef.value else repos[name].defaultRef) in w.git[name].commits
    ensures var (w', r) := Allocate(l, repos, w, operation, name, baseRef, Luck(true, Done, at));
            Agrees(Classify(l, w, operation, name, ExistingResource(w, operation, name)), w, w', r)
  {
  }

  /** Without those hypotheses: for every input and every outcome of the lock and of git, exactly when
      an allocation succeeds, in the classifier's terms. In particular the allocator's "stale
      resource" refusal can never be given. */
  lemma AllocatesExactlyWhen(l: Layout, repos: map<string, Repo>, w: World, operation: string, name: string,
                             baseRef: Option<string>, luck: Luck)
    requires name in repos && name in w.git && repos[name].name == name
    ensures var (w', r) := Allocate(l, repos, w, operation, name, baseRef, luck);
            var state := Classify(l, w, operation, name, ExistingResource(w, operation, name));
            && (r.Ok? <==>
                  && luck.lock
                  && (if baseRef.Some? && baseRef.value != "" then baseRef.value else repos[name].defaultRef) in w.git[name].commits
                  && ResourceFits(l, repos, w, operation, name)
                  && (state == Ready
                      || (luck.git == Done && state in {LocalBranchMissingWorktree, DurableResourceWithoutGitState, Missing})))
            && r != Err(ResourceStale)
  {
    hide NewWorktree;
    hide Listed;
    var g, target := w.git[name], l.pathOf(operation, name);
    var checkedOut := CheckedOut(g.worktrees, l.branchOf(operation, name));
    if checkedOut.Some? && l.resolve(checkedOut.value.path) == l.resolve(target) {
      assert RegisteredAt(l, g.worktrees, target).Some?;
    }
  }

  /** Whatever was checked out somewhere is found there still, and every registration is kept. */
  ghost predicate KeepsWorktrees(before: seq<WorktreeInfo>, after: seq<WorktreeInfo>) {
    && (forall b :: CheckedOut(before, b).Some? ==> CheckedOut(after, b) == CheckedOut(before, b))
    && (forall x :: x in before ==> x in after)
  }

  ghost predicate KeepsGit(before: Git, after: Git) {
    && (forall b :: b in before.locals ==> b in after.locals && after.locals[b] == before.locals[b])
    && before.remotes == after.remotes && before.commits == after.commits
    && KeepsWorktrees(before.worktrees, after.worktrees)
  }

  ghost predicate KeepsStore(before: map<string, Resource>, after: map<string, Resource>) {
    forall id :: id in before ==> id in after && after[id] == before[id]
  }

  /** Nothing is ever removed or moved: branches and their tips, remote refs, registrations, paths
      and resources. */
  ghost predicate Preserves(w: World, w': World) {
    && w.git.Keys == w'.git.Keys
    && (forall n :: n in w.git ==> KeepsGit(w.git[n], w'.git[n]))
    && w.paths <= w'.paths
    && KeepsStore(w.store, w'.store)
  }

  lemma PreservesTransitive(a: World, b: World, c: World)
    requires Preserves(a, b) && Preserves(b, c)
    ensures Preserves(a, c)
  {
    forall n | n in a.git ensures KeepsGit(a.git[n], c.git[n]) {
      assert KeepsGit(a.git[n], b.git[n]) && KeepsGit(b.git[n], c.git[n]);
    }
  }

  lemma {:induction false} CheckedOutConcat(a: seq<WorktreeInfo>, b: seq<WorktreeInfo>, branch: string)
    ensures CheckedOut(a + b, branch) == (if CheckedOut(a, branch).Some? then CheckedOut(a, branch) else CheckedOut(b, branch))
  {
    if a == [] {
      assert a + b == b;
    } else {
      assert (a + b)[1..] == a[1..] + b;
      CheckedOutConcat(a[1..], b, branch);
    }
  }

  lemma CheckedOutListed(ws: seq<WorktreeInfo>, at: nat, info: WorktreeInfo, branch: string)
    ensures info.BranchName() != Some(branch) ==> CheckedOut(Listed(ws, at, info), branch) == CheckedOut(ws, branch)
    ensures info.BranchName() == Some(branch) && CheckedOut(ws, branch).None? ==> CheckedOut(Listed(ws, at, info), branch) == Some(info)
  {
    var k := if at <= |ws| then at else |ws|;
    CheckedOutConcat(ws[..k] + [info], ws[k..], branch);
    CheckedOutConcat(ws[..k], [info], branch);
    CheckedOutConcat(ws[..k], ws[k..], branch);
    assert ws[..k] + ws[k..] == ws;
  }

  lemma ListedKeeps(ws: seq<WorktreeInfo>, at: nat, info: WorktreeInfo)
    requires info.BranchName().Some? ==> CheckedOut(ws, info.BranchName().value).None?
    ensures KeepsWorktrees(ws, Listed(ws, at, info))
  {
    forall b | CheckedOut(ws, b).Some? ensures CheckedOut(Listed(ws, at, info), b) == CheckedOut(ws, b) {
      CheckedOutListed(ws, at, info, b);
    }
    var k := if at <= |ws| then at else |ws|;
    assert ws == ws[..k] + ws[k..];
  }

  lemma BranchMadePreserves(w: World, name: string, branch: string, tip: string)
    requires name in w.git && branch !in w.git[name].locals
    ensures Preserves(w, BranchMade(w, name, branch, tip))
  {
  }

  lemma WorktreeAddedPreserves(l: Layout, w: World, name: string, branch: string, target: string, at: nat)
    requires name in w.git && branch in w.git[name].locals && CheckedOut(w.git[name].worktrees, branch).None?
    ensures Preserves(w, WorktreeAdded(l, w, name, branch, target, at))
  {
    var g := w.git[name];
    BranchNameOf(branch, l.resolve(target), g.locals[branch]);
    ListedKeeps(g.worktrees, at, NewWorktree(l, branch, target, g.locals[branch]));
  }

  lemma WithResourcePreserves(w: World, existing: Option<Resource>, operation: string, repo: Repo, branch: string, target: string,
                              ref: string, sha: string, status: Status, info: WorktreeInfo)
    ensures Preserves(w, WithResource(w, existing, operation, repo, branch, target, ref, sha, status, info).0)
  {
  }

  lemma PreservesItself(w: World)
    ensures Preserves(w, w)
  {
  }

  /** Adding a worktree for a branch nobody has checked out, then recording it. */
  lemma AddedThenRecorded(l: Layout, w: World, existing: Option<Resource>, operation: string, repo: Repo, branch: string,
                          target: string, ref: string, sha: string, status: Status, info: WorktreeInfo, at: nat)
    requires repo.name in w.git && branch in w.git[repo.name].locals
    requires CheckedOut(w.git[repo.name].worktrees, branch).None?
    ensures Preserves(w, WithResource(WorktreeAdded(l, w, repo.name, branch, target, at), existing, operation, repo, branch,
                                      target, ref, sha, status, info).0)
  {
    hide Preserves;
    hide WithResource;
    hide WorktreeAdded;
    var w' := WorktreeAdded(l, w, repo.name, branch, target, at);
    WorktreeAddedPreserves(l, w, repo.name, branch, target, at);
    WithResourcePreserves(w', existing, operation, repo, branch, target, ref, sha, status, info);
    PreservesTransitive(w, w', WithResource(w', existing, operation, repo, branch, target, ref, sha, status, info).0);
  }

  lemma BranchMadeThenRecorded(l: Layout, w: World, existing: Option<Resource>, operation: string, repo: Repo, branch: string,
                               target: string, ref: string, sha: string, status: Status, info: WorktreeInfo, at: nat)
    requires repo.name in w.git && branch !in w.git[repo.name].locals
    requires CheckedOut(w.git[repo.name].worktrees, branch).None?
    ensures Preserves(w, WithResource(WorktreeAdded(l, BranchMade(w, repo.name, branch, sha), repo.name, branch, target, at),
                                      existing, operation, repo, branch, target, ref, sha, status, info).0)
  {
    hide Preserves;
    hide WithResource;
    hide WorktreeAdded;
    var w' := BranchMade(w, repo.name, branch, sha);
    BranchMadePreserves(w, repo.name, branch, sha);
    AddedThenRecorded(l, w', existing, operation, repo, branch, target, ref, sha, status, info, at);
    var added := WorktreeAdded(l, w', repo.name, branch, target, at);
    PreservesTransitive(w, w', WithResource(added, existing, operation, repo, branch, target, ref, sha, status, info).0);
  }

  /** The allocator is non-destructive: whatever it returns and wherever git stopped, nothing that
      was there before is removed or changed. */
  lemma AllocateIsNonDestructive(l: Layout, repos: map<string, Repo>, w: World, operation: string, name: string,
                                 baseRef: Option<string>, luck: Luck)
    ensures Preserves(w, Allocate(l, repos, w, operation, name, baseRef, luck).0)
  {
    hide Preserves;
    hide WithResource;
    hide WorktreeAdded;
    hide BranchMade;
    hide Validated;
    hide ExistingResource;
    hide RegisteredAt;
    hide CheckedOut;
    hide NewWorktree;
    PreservesItself(w);
    if name in repos && name in w.git && repos[name].name == name {
      var repo, g := repos[name], w.git[name];
      var ref := if baseRef.Some? && baseRef.value != "" then baseRef.value else repo.defaultRef;
      var branch, target := l.branchOf(operation, name), l.pathOf(operation, name);
      var existing := ExistingResource(w, operation, name);
      if ref in g.commits {
        var sha := g.commits[ref];
        match CheckedOut(g.worktrees, branch)
        case Some(info) =>
          WithResourcePreserves(w, existing, operation, repo, branch, target, ref, sha, Reused, info);
        case None =>
          if branch in g.locals {
            AddedThenRecorded(l, w, existing, operation, repo, branch, target, ref, sha, Reattached,
                              NewWorktree(l, branch, target, g.locals[branch]), luck.at);
          } else {
            BranchMadePreserves(w, name, branch, sha);
            BranchMadeThenRecorded(l, w, existing, operation, repo, branch, target, ref, sha, Created,
                                   NewWorktree(l, branch, target, sha), luck.at);
          }
      }
    }
  }

  lemma BranchNameOf(branch: string, path: string, sha: string)
    ensures WorktreeInfo(path, Some(sha), Some("refs/heads/" + branch), false, false, None).BranchName() == Some(branch)
  {
    assert ("refs/heads/" + branch)[..11] == "refs/heads/" && ("refs/heads/" + branch)[11..] == branch;
  }

  /** Git lists the worktree at its path on its branch and its resource fits: what a finished
      allocation leaves behind, and `info` and `resource` are what it returned. Whether the
      directory exists is another matter: see `Present`. */
  predicate Finished(l: Layout, repos: map<string, Repo>, w: World, operation: string, name: string, resource: Resource, info: WorktreeInfo) {
    && name in repos && name in w.git && repos[name].name == name
    && CheckedOut(w.git[name].worktrees, l.branchOf(operation, name)) == Some(info)
    && l.resolve(info.path) == l.resolve(l.pathOf(operation, name))
    && ExistingResource(w, operation, name) == Some(resource)
    && ResourceMatches(resource, repos[name], l.branchOf(operation, name), l.pathOf(operation, name))
  }

  /** What recording returns belongs to the operation and is about this repository, branch and path. */
  lemma RecordedFits(w: World, existing: Option<Resource>, operation: string, repo: Repo, branch: string, target: string,
                     ref: string, sha: string, status: Status, info: WorktreeInfo)
    requires existing == ExistingResource(w, operation, repo.name)
    requires existing.Some? ==> ResourceMatches(existing.value, repo, branch, target)
    ensures var (w', r) := WithResource(w, existing, operation, repo, branch, target, ref, sha, status, info);
            && w'.git == w.git
            && (r.Ok? ==>
                  && r.value.worktree == info
                  && ExistingResource(w', operation, repo.name) == Some(r.value.resource)
                  && ResourceMatches(r.value.resource, repo, branch, target))
  {
  }

  lemma AddedIsCheckedOut(l: Layout, w: World, name: string, branch: string, target: string, at: nat)
    requires name in w.git && branch in w.git[name].locals && CheckedOut(w.git[name].worktrees, branch).None?
    ensures var w' := WorktreeAdded(l, w, name, branch, target, at);
            && name in w'.git && w'.store == w.store
            && CheckedOut(w'.git[name].worktrees, branch) == Some(NewWorktree(l, branch, target, w.git[name].locals[branch]))
  {
    var g := w.git[name];
    BranchNameOf(branch, l.resolve(target), g.locals[branch]);
    CheckedOutListed(g.worktrees, at, NewWorktree(l, branch, target, g.locals[branch]), branch);
  }

  /** A successful allocation leaves its worktree finished. */
  lemma AllocateFinishes(l: Layout, repos: map<string, Repo>, w: World, operation: string, name: string,
                         baseRef: Option<string>, luck: Luck)
    requires l.Lawful()
    ensures var (w', r) := Allocate(l, repos, w, operation, name, baseRef, luck);
            r.Ok? ==> Finished(l, repos, w', operation, name, r.value.resource, r.value.worktree)
  {
    hide WithResource;
    hide WorktreeAdded;
    hide CheckedOut;
    hide RegisteredAt;
    hide ResourceMatches;
    hide ExistingResource;
    var (w', r) := Allocate(l, repos, w, operation, name, baseRef, luck);
    if r.Ok? {
      var repo, g := repos[name], w.git[name];
      var branch, target := l.branchOf(operation, name), l.pathOf(operation, name);
      var ref := if baseRef.Some? && baseRef.value != "" then baseRef.value else repo.defaultRef;
      var sha, existing := g.commits[ref], ExistingResource(w, operation, name);
      match CheckedOut(g.worktrees, branch)
      case Some(info) =>
        RecordedFits(w, existing, operation, repo, branch, target, ref, sha, Reused, info);
      case None =>
        assert l.resolve(l.resolve(target)) == l.resolve(target);
        var made := if branch in g.locals then w else BranchMade(w, name, branch, sha);
        var status := if branch in g.locals then Reattached else Created;
        SameStoreSameResource(w, made, operation, name);
        AddedIsCheckedOut(l, made, name, branch, target, luck.at);
        var added := WorktreeAdded(l, made, name, branch, target, luck.at);
        SameStoreSameResource(made, added, operation, name);
        RecordedFits(added, existing, operation, repo, branch, target, ref, sha, status,
                     NewWorktree(l, branch, target, made.git[name].locals[branch]));
    }
  }

  lemma SameStoreSameResource(a: World, b: World, operation: string, name: string)
    requires a.store == b.store
    ensures ExistingResource(a, operation, name) == ExistingResource(b, operation, name)
  {
  }

  /** Later allocations, of any operation in any repository, leave it finished. */
  lemma FinishedSurvives(l: Layout, repos: map<string, Repo>, w: World, w': World, operation: string, name: string,
                         resource: Resource, info: WorktreeInfo)
    requires Finished(l, repos, w, operation, name, resource, info) && Preserves(w, w')
    ensures Finished(l, repos, w', operation, name, resource, info)
  {
    assert KeepsGit(w.git[name], w'.git[name]);
  }

  /** Idempotence: once finished, and whatever happened in between, allocating again reuses the same
      worktree and the same resource and changes nothing at all, even if git would now fail; and
      the classifier reports ready. */
  lemma FinishedIsReused(l: Layout, repos: map<string, Repo>, w: World, operation: string, name: string,
                         resource: Resource, info: WorktreeInfo, baseRef: Option<string>, luck: Luck)
    requires Finished(l, repos, w, operation, name, resource, info)
    requires luck.lock
    requires (if baseRef.Some? && baseRef.value != "" then baseRef.value else repos[name].defaultRef) in w.git[name].commits
    ensures Allocate(l, repos, w, operation, name, baseRef, luck) == (w, Ok(Allocation(Reused, resource, info)))
    ensures Classify(l, w, operation, name, Some(resource)) == Ready
  {
  }

  // ---- The directory ----------------------------------------------------------------

  function Target(l: Layout, operation: string, name: string): string {
    l.resolve(l.pathOf(operation, name))
  }

  /** The directory of the operation's worktree exists. */
  predicate Present(l: Layout, w: World, operation: string, name: string) {
    Target(l, operation, name) in w.paths
  }

  /** A successful allocation makes its directory exactly if it does not reuse. */
  lemma AllocatedPaths(l: Layout, repos: map<string, Repo>, w: World, operation: string, name: string, baseRef: Option<string>, luck: Luck)
    ensures var (w', r) := Allocate(l, repos, w, operation, name, baseRef, luck);
            r.Ok? ==> w'.paths == if r.value.status == Reused then w.paths else w.paths + {Target(l, operation, name)}
  {
    hide CheckedOut;
    hide RegisteredAt;
    hide Listed;
    hide NewWorktree;
  }

  /** Exactly when a successful allocation leaves its directory existing: unless the classifier called
      ready a worktree whose directory is gone. */
  lemma DirectoryExactlyWhen(l: Layout, repos: map<string, Repo>, w: World, operation: string, name: string, baseRef: Option<string>, luck: Luck)
    requires Allocate(l, repos, w, operation, name, baseRef, luck).1.Ok?
    ensures name in w.git
    ensures var w' := Allocate(l, repos, w, operation, name, baseRef, luck).0;
            Present(l, w', operation, name)
            <==> Present(l, w, operation, name)
                 || Classify(l, w, operation, name, ExistingResource(w, operation, name)) != Ready
  {
    hide CheckedOut;
    hide RegisteredAt;
    hide Listed;
    hide NewWorktree;
    AllocatedPaths(l, repos, w, operation, name, baseRef, luck);
  }

  /** Git lists the operation's branch at the operation's path: the classifier's `Ready`. */
  predicate AtItsPath(l: Layout, w: World, operation: string, name: string) {
    name in w.git &&
    var checkedOut := CheckedOut(w.git[name].worktrees, l.branchOf(operation, name));
    checkedOut.Some? && l.resolve(checkedOut.value.path) == Target(l, operation, name)
  }

  /** What a successful allocation touches: it reuses exactly what is ready, and then changes no git
      state and no path; otherwise it makes a directory that was not there, and only its own
      repository's git state changes. */
  lemma AllocationEffect(l: Layout, repos: map<string, Repo>, w: World, operation: string, name: string, baseRef: Option<string>, luck: Luck)
    requires Allocate(l, repos, w, operation, name, baseRef, luck).1.Ok?
    ensures var (w', r) := Allocate(l, repos, w, operation, name, baseRef, luck);
            && name in w.git && w'.git.Keys == w.git.Keys
            && (r.value.status == Reused <==> AtItsPath(l, w, operation, name))
            && (r.value.status == Reused <==> Classify(l, w, operation, name, ExistingResource(w, operation, name)) == Ready)
            && (r.value.status == Reused ==> w'.git == w.git)
            && (r.value.status != Reused ==> !Present(l, w, operation, name))
            && (forall x :: x in w.git && x != name ==> w'.git[x] == w.git[x])
  {
    hide CheckedOut;
    hide RegisteredAt;
    hide Listed;
    hide NewWorktree;
  }

  /** The base asked for: the given reference, unless it is empty, and the repository's default otherwise. */
  function BaseAsked(repo: Repo, baseRef: Option<string>): string {
    if baseRef.Some? && baseRef.value != "" then baseRef.value else repo.defaultRef
  }

  /** Where a branch starts and what the resource records: a created branch is at the commit of the base
      asked for, and a reattached one where it was; a new resource names that base, that commit and what
      was done; an existing one is returned as it is. */
  lemma AllocationBase(l: Layout, repos: map<string, Repo>, w: World, operation: string, name: string, baseRef: Option<string>, luck: Luck)
    requires Allocate(l, repos, w, operation, name, baseRef, luck).1.Ok?
    ensures name in repos && name in w.git && BaseAsked(repos[name], baseRef) in w.git[name].commits
    ensures var (w', r) := Allocate(l, repos, w, operation, name, baseRef, luck);
            var a, branch, g := r.value, l.branchOf(operation, name), w.git[name];
            var ref := BaseAsked(repos[name], baseRef);
            && name in w'.git
            && (a.status == Created ==>
                  branch !in g.locals && branch in w'.git[name].locals && w'.git[name].locals[branch] == g.commits[ref]
                  && a.worktree == WorktreeInfo(Target(l, operation, name), Some(g.commits[ref]), Some("refs/heads/" + branch), false, false, None))
            && (a.status == Reattached ==>
                  branch in g.locals && branch in w'.git[name].locals && w'.git[name].locals[branch] == g.locals[branch]
                  && a.worktree == WorktreeInfo(Target(l, operation, name), Some(g.locals[branch]), Some("refs/heads/" + branch), false, false, None))
            && (a.status == Reused ==> CheckedOut(g.worktrees, branch) == Some(a.worktree))
    ensures var (w', r) := Allocate(l, repos, w, operation, name, baseRef, luck);
            var id, ref := operation + ":" + name + ":git-worktree", BaseAsked(repos[name], baseRef);
            if id in w.store && w.store[id].operation == operation then w'.store == w.store && r.value.resource == w.store[id]
            else
              && id !in w.store && w'.store == w.store[id := r.value.resource]
              && r.value.resource == Resource(id, operation, name, repos[name].path, l.pathOf(operation, name), l.branchOf(operation, name),
                                              ref, w.git[name].commits[ref], r.value.status)
  {
    hide CheckedOut;
    hide RegisteredAt;
    hide Listed;
  }

  const ONE_REPO: map<string, Repo> := map["r" := Repo("r", "/r", "HEAD")]

  /** The operation's worktree in the one repository was deleted by hand: git lists it as prunable,
      and its directory is gone. */
  function DeletedByHand(l: Layout, operation: string): World {
    var branch, target := l.branchOf(operation, "r"), l.pathOf(operation, "r");
    var entry := WorktreeInfo(target, Some("sha"), Some("refs/heads/" + branch), false, false,
                              Some("gitdir file points to non-existent location"));
    var resource := Resource(ResourceId(operation, "r"), operation, "r", "/r", target, branch, "HEAD", "sha", Created);
    World(map["r" := Git(map[branch := "sha"], {}, [entry], map["HEAD" := "sha"])], {}, map[resource.id := resource])
  }

  /** It is reused as it is, and both the allocator and the classifier are content. */
  lemma DeletedWorktreeIsReused(l: Layout, operation: string, luck: Luck)
    requires luck.lock
    ensures var w := DeletedByHand(l, operation);
            && Classify(l, w, operation, "r", ExistingResource(w, operation, "r")) == Ready
            && var (w', r) := Allocate(l, ONE_REPO, w, operation, "r", None, luck);
            && r.Ok? && r.value.status == Reused && w' == w && !Present(l, w', operation, "r")
            && Finished(l, ONE_REPO, w', operation, "r", r.value.resource, r.value.worktree)
  {
    var w := DeletedByHand(l, operation);
    var branch := l.branchOf(operation, "r");
    var entry := w.git["r"].worktrees[0];
    assert ("refs/heads/" + branch)[..11] == "refs/heads/" && ("refs/heads/" + branch)[11..] == branch;
    assert entry.BranchName() == Some(branch);
    assert CheckedOut(w.git["r"].worktrees, branch) == Some(entry);
  }

  /** The host's allocator object. */
  class Allocator {
    const l: Layout
    const repos: map<string, Repo>
    var world: World

    constructor (l: Layout, repos: map<string, Repo>, world: World)
      ensures this.l == l && this.repos == repos && this.world == world
    {
      this.l := l;
      this.repos := repos;
      this.world := world;
    }

    /** `_allocation_with_resource` */
    method Record(existing: Option<Resource>, operation: string, repo: Repo, branch: string, target: string,
                  ref: string, sha: string, status: Status, info: WorktreeInfo) returns (r: Result<Allocation, Error>)
      modifies this
      ensures (world, r) == WithResource(old(world), existing, operation, repo, branch, target, ref, sha, status, info)
    {
      if existing.Some? {
        return Ok(Allocation(status, existing.value, info));
      }
      var id := ResourceId(operation, repo.name);
      if id in world.store {
        return Err(ResourceIdTaken);
      }
      var resource := Resource(id, operation, repo.name, repo.path, target, branch, ref, sha, status);
      world := world.(store := world.store[id := resource]);
      r := Ok(Allocation(status, resource, info));
    }

    /** `allocate_worktree`, `_allocate_locked`. Nothing is taken away, and what is returned is finished. */
    method AllocateWorktree(operation: string, name: string, baseRef: Option<string>, luck: Luck) returns (r: Result<Allocation, Error>)
      modifies this
      ensures (world, r) == Allocate(l, repos, old(world), operation, name, baseRef, luck)
      ensures Preserves(old(world), world)
      ensures l.Lawful() && r.Ok? ==> Finished(l, repos, world, operation, name, r.value.resource, r.value.worktree)
    {
      hide WithResource;
      hide Preserves;
      hide Finished;
      hide Validated;
      hide Layout.Lawful;
      AllocateIsNonDestructive(l, repos, world, operation, name, baseRef, luck);
      if l.Lawful() {
        AllocateFinishes(l, repos, world, operation, name, baseRef, luck);
      }
      if name !in repos || name !in world.git || repos[name].name != name {
        return Err(RepoNotFound);
      }
      if !luck.lock {
        return Err(LockTimeout);
      }
      var repo, g := repos[name], world.git[name];
      var ref := repo.defaultRef;
      if baseRef.Some? && baseRef.value != "" {
        ref := baseRef.value;
      }
      var branch, target := l.branchOf(operation, name), l.pathOf(operation, name);
      var existing := ExistingResource(world, operation, name);
      if ref !in g.commits {
        return Err(RefUnresolvable);
      }
      var sha := g.commits[ref];
      var checkedOut := CheckedOut(g.worktrees, branch);
      if checkedOut.Some? {
        if l.resolve(checkedOut.value.path) != l.resolve(target) {
          return Err(BranchCheckedOutElsewhere);
        }
        var invalid := Validated(l, existing, repo, g, branch, target, false);
        if invalid.Some? {
          return Err(invalid.value);
        }
        r := Record(existing, operation, repo, branch, target, ref, sha, Reused, checkedOut.value);
        return;
      }
      var registered := RegisteredAt(l, g.worktrees, target);
      if l.resolve(target) in world.paths && registered.None? {
        return Err(PathConflict);
      }
      if registered.Some? {
        return Err(PathConflict);
      }
      var invalid := Validated(l, existing, repo, g, branch, target, true);
      if invalid.Some? {
        return Err(invalid.value);
      }
      if branch in g.locals {
        if luck.git != Done {
          return Err(ReattachFailed);
        }
        world := WorktreeAdded(l, world, name, branch, target, luck.at);
        r := Record(existing, operation, repo, branch, target, ref, sha, Reattached, NewWorktree(l, branch, target, g.locals[branch]));
        return;
      }
      if "origin/" + branch in g.remotes {
        return Err(RemoteTrackingConflict);
      }
      if luck.git == Failed {
        return Err(CreateFailed);
      }
      world := BranchMade(world, name, branch, sha);
      if luck.git == FailedAfterBranch {
        return Err(CreateFailed);
      }
      world := WorktreeAdded(l, world, name, branch, target, luck.at);
      r := Record(existing, operation, repo, branch, target, ref, sha, Created, NewWorktree(l, branch, target, sha));
    }
  }
}
