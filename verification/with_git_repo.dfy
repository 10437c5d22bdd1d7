/**
 * The `WithGitRepo` class: construction from an options hash, the lazily
 * cloned and memoised git handle, branch resolution, the `committable?`
 * test, and the checkout / mutate / stage / commit-and-push workflow.
 */
module WithGitRepo {
  import opened Wrappers
  import opened GitRepo

  const DefaultUserName: string := "with_git_repo"
  const DefaultUserEmail: string := "with_git_repo@everypolitician.org"

  /**
   * The options hash given to `new`. A field is None when its key is absent;
   * `cloneUrl` is Some(None) when `:clone_url` is present with value nil.
   * An absent `:git` and a nil one are the same to the class.
   */
  datatype Options = Options(
    cloneUrl: Option<Option<string>>,
    userName: Option<string>,
    userEmail: Option<string>,
    git: Option<Repo>)

  /** An instance: its three readers and the memoised git handle (None until first use). */
  datatype Instance = Instance(cloneUrl: Option<string>, userName: string, userEmail: string, git: Option<Repo>)

  datatype Error =
    | KeyError(key: string)  // `options.fetch` of a required key that is absent
    | CloneFailed            // `Git.clone` raised while the handle was being created

  /** What one call of the workflow leaves behind. */
  datatype Outcome = Outcome(self: Instance, committed: bool, pushed: bool)

  /** The repository-level result of the workflow: the new repository and what happened. */
  datatype Step = Step(repo: Repo, committed: bool, pushed: bool)

  /** A branch argument the workflow accepts: absent, or a name outside the `origin/` namespace. */
  predicate BranchArgOk(branch: Option<string>) {
    branch.Some? ==> !IsTrackingName(branch.value)
  }

  /**
   * `initialize`: `:clone_url` is required (its value may be nil); the
   * author name and email fall back to the defaults when their keys are
   * absent; `:git` pre-seeds the handle.
   */
  function New(o: Options): (r: Result<Instance, Error>)
    ensures r.Failure? <==> o.cloneUrl.None?
    ensures r.Failure? ==> r.error == KeyError("clone_url")
    ensures r.Success? ==> r.value.cloneUrl == o.cloneUrl.value && r.value.git == o.git
    ensures r.Success? && o.userName.None? ==> r.value.userName == DefaultUserName
    ensures r.Success? && o.userName.Some? ==> r.value.userName == o.userName.value
    ensures r.Success? && o.userEmail.None? ==> r.value.userEmail == DefaultUserEmail
    ensures r.Success? && o.userEmail.Some? ==> r.value.userEmail == o.userEmail.value
  {
    match o.cloneUrl
    case None => Failure(KeyError("clone_url"))
    case Some(url) =>
      Success(Instance(url, o.userName.GetOr(DefaultUserName), o.userEmail.GetOr(DefaultUserEmail), o.git))
  }

  /**
   * `default_git`: clone `clone_url` into a fresh directory and configure the
   * instance's author identity on the clone. `cloned` is what the clone
   * produced, None when it raised; a nil URL cannot be cloned.
   */
  function DefaultGit(i: Instance, cloned: Option<Repo>): (r: Option<Repo>)
    ensures r.Some? <==> i.cloneUrl.Some? && cloned.Some?
    ensures r.Some? ==> r.value.userName == i.userName && r.value.userEmail == i.userEmail
    ensures r.Some? ==> r.value.(userName := cloned.value.userName, userEmail := cloned.value.userEmail) == cloned.value
  {
    if i.cloneUrl.None? || cloned.None? then None
    else Some(GitConfigIdentity(cloned.value, i.userName, i.userEmail))
  }

  /** `git`: `@git ||= default_git`, returning the updated instance and the handle. */
  function Git(i: Instance, cloned: Option<Repo>): (r: Result<(Instance, Repo), Error>)
    ensures i.git.Some? ==> r == Success((i, i.git.value))
    ensures i.git.None? ==> (r.Failure? <==> DefaultGit(i, cloned).None?)
    ensures r.Failure? ==> r.error == CloneFailed
    ensures r.Success? ==> r.value.0 == i.(git := Some(r.value.1))
    ensures r.Success? && i.git.None? ==> r.value.1.userName == i.userName && r.value.1.userEmail == i.userEmail
    ensures r.Success? && i.git.None? ==> DefaultGit(i, cloned).Some? && r.value.1 == DefaultGit(i, cloned).value
  {
    match i.git
    case Some(g) => Success((i, g))
    case None =>
      match DefaultGit(i, cloned)
      case None => Failure(CloneFailed)
      case Some(g) => Success((i.(git := Some(g)), g))
  }

  /** `exists?`: `git.branches[b]` or `git.branches["origin/#{b}"]`. */
  predicate Exists(g: Repo, b: string) {
    HasBranch(g, b) || HasBranch(g, TrackingName(b))
  }

  /** `checkout_existing`: check `b` out when it exists, otherwise report false (None). */
  function CheckoutExisting(g: Repo, b: string): (r: Option<Repo>)
    requires Wf(g) && !IsTrackingName(b)
    ensures r.Some? <==> b in g.local || TrackingName(b) in g.tracking
    ensures r.Some? ==> r.value.current == b && b in r.value.local
    ensures r.Some? && b in g.local ==> r.value.local == g.local
    ensures r.Some? && b !in g.local ==> r.value.local == g.local[b := g.tracking[TrackingName(b)]]
    ensures r.Some? && b in g.local && b == g.current ==> r.value == g
    ensures r.Some? && !(b in g.local && b == g.current) ==> Clean(r.value)
    ensures r.Some? ==> r.value.tracking == g.tracking && r.value.remote == g.remote
    ensures r.Some? ==> r.value.userName == g.userName && r.value.userEmail == g.userEmail
  {
    ExistsInWf(g, b);
    if Exists(g, b) then Some(GitCheckout(g, b)) else None
  }

  /** `create_and_checkout`: `git checkout -b b`. */
  function CreateAndCheckout(g: Repo, b: string): (r: Repo)
    requires b !in g.local
    ensures r.current == b && HeadCommit(r) == HeadCommit(g)
    ensures HeadCommit(g).Some? ==> r.local == g.local[b := HeadCommit(g).value]
    ensures HeadCommit(g).None? ==> r.local == g.local
    ensures r.index == g.index && r.worktree == g.worktree
    ensures r.tracking == g.tracking && r.remote == g.remote
    ensures r.userName == g.userName && r.userEmail == g.userEmail
  {
    GitCheckoutNewBranch(g, b)
  }

  /**
   * `checkout`: nothing for a nil branch; an existing branch (local or
   * `origin/<b>`) is checked out at its existing tip; any other name is
   * created at the current HEAD and checked out.
   */
  function Checkout(g: Repo, branch: Option<string>): (r: Repo)
    requires Wf(g) && BranchArgOk(branch)
    ensures Wf(r)
    ensures branch.None? ==> r == g
    ensures branch.Some? ==> r.current == branch.value
    ensures r.tracking == g.tracking && r.remote == g.remote
    ensures r.userName == g.userName && r.userEmail == g.userEmail
    // an existing branch: its tip is the existing one, nothing else is created
    ensures branch.Some? && branch.value in g.local ==> r.local == g.local
    ensures branch.Some? && branch.value !in g.local && TrackingName(branch.value) in g.tracking ==>
              r.local == g.local[branch.value := g.tracking[TrackingName(branch.value)]]
    ensures branch.Some? && branch.value == g.current && branch.value in g.local ==> r == g
    ensures branch.Some? && !(branch.value in g.local && branch.value == g.current)
            && (branch.value in g.local || TrackingName(branch.value) in g.tracking) ==>
              Clean(r)
    // a new branch: it starts at the old HEAD, which keeps its index and working tree
    ensures branch.Some? && branch.value !in g.local && TrackingName(branch.value) !in g.tracking ==>
              && HeadCommit(r) == HeadCommit(g)
              && r.local == (if HeadCommit(g).Some? then g.local[branch.value := HeadCommit(g).value] else g.local)
              && r.index == g.index && r.worktree == g.worktree
  {
    match branch
    case None => g
    case Some(b) =>
      match CheckoutExisting(g, b)
      case Some(r) => r
      case None => CreateAndCheckout(g, b)
  }

  /** `committable?`: `status.changed.any? || status.added.any?`. */
  predicate Committable(g: Repo) {
    Changed(g) != {} || Added(g) != {}
  }

  /**
   * The body of `commit_changes_to_branch` on an existing handle: check the
   * branch out, let `block` rewrite the working tree, stage everything, and
   * when the result is committable, commit and then push to `origin` under
   * the branch name.
   */
  function CommitChangesOnRepo(g: Repo, branch: Option<string>, message: string, block: Tree -> Tree): (s: Step)
    requires Wf(g) && BranchArgOk(branch)
    ensures Wf(s.repo)
    ensures branch.None? ==> s.repo.current == g.current
    ensures branch.Some? ==> s.repo.current == branch.value
    ensures s.repo.worktree == block(Checkout(g, branch).worktree) && s.repo.index == s.repo.worktree
    ensures s.committed <==> !SubTree(s.repo.worktree, HeadTree(Checkout(g, branch)))
    ensures s.pushed <==> s.committed
    ensures s.repo.userName == g.userName && s.repo.userEmail == g.userEmail
    ensures forall n :: n in Checkout(g, branch).local && n != s.repo.current ==>
              n in s.repo.local && s.repo.local[n] == Checkout(g, branch).local[n]
    // nothing to commit: no new commit and the remote is untouched
    ensures !s.committed ==> s.repo.local == Checkout(g, branch).local
    ensures !s.committed ==> s.repo.remote == g.remote && s.repo.tracking == g.tracking
    // a commit of the staged tree, by the configured author, on top of the old HEAD, pushed to origin
    ensures s.committed ==> s.repo.current in s.repo.local
    ensures s.committed ==> s.repo.local.Keys == Checkout(g, branch).local.Keys + {s.repo.current}
    ensures s.committed ==>
              s.repo.local[s.repo.current] == Commit(s.repo.worktree, message, g.userName, g.userEmail, HeadCommit(Checkout(g, branch)))
    ensures s.committed ==> s.repo.remote == g.remote[s.repo.current := s.repo.local[s.repo.current]]
    ensures s.committed ==> s.repo.tracking == g.tracking[TrackingName(s.repo.current) := s.repo.local[s.repo.current]]
    ensures s.committed ==> Clean(s.repo)
  {
    var c := Checkout(g, branch);
    var staged := GitAdd(c.(worktree := block(c.worktree)));
    CommittableIffNotSubTree(staged);
    if Committable(staged) then
      var made := GitCommit(staged, message);
      TrackingNameIsTracking(made.current);
      Step(GitPush(made, branch.GetOr(made.current)), true, true)
    else
      Step(staged, false, false)
  }

  /**
   * `commit_changes_to_branch(branch, message) { ... }`: obtain the (lazily
   * cloned) handle, then run the workflow on it and keep the new repository
   * state as the instance's handle.
   */
  function CommitChangesToBranch(i: Instance, cloned: Option<Repo>, branch: Option<string>, message: string,
                                 block: Tree -> Tree): (r: Result<Outcome, Error>)
    requires i.git.Some? ==> Wf(i.git.value)
    requires cloned.Some? ==> Wf(cloned.value)
    requires BranchArgOk(branch)
    ensures r.Failure? <==> i.git.None? && (i.cloneUrl.None? || cloned.None?)
    ensures r.Failure? ==> r.error == CloneFailed
    ensures r.Success? ==> r.value.self.git.Some? && Wf(r.value.self.git.value)
    ensures r.Success? ==> r.value.self.(git := i.git) == i
    ensures r.Success? && branch.Some? ==> r.value.self.git.value.current == branch.value
    ensures r.Success? ==> (r.value.pushed <==> r.value.committed)
    // the run is the repository-level workflow on the handle: the existing one, or the configured clone
    ensures r.Success? ==>
              var g0 := if i.git.Some? then i.git.value else DefaultGit(i, cloned).value;
              var s := CommitChangesOnRepo(g0, branch, message, block);
              && r.value.self.git == Some(s.repo)
              && r.value.committed == s.committed && r.value.pushed == s.pushed
    // the commit carries the handle's identity: the instance's own for a handle it cloned
    ensures r.Success? && r.value.committed ==>
              var g := r.value.self.git.value;
              && g.current in g.local
              && g.local[g.current].message == message
              && g.local[g.current].tree == g.worktree
              && g.local[g.current].authorName == (if i.git.Some? then i.git.value.userName else i.userName)
              && g.local[g.current].authorEmail == (if i.git.Some? then i.git.value.userEmail else i.userEmail)
              && g.current in g.remote && g.remote[g.current] == g.local[g.current]
  {
    match Git(i, cloned)
    case Failure(e) => Failure(e)
    case Success((i1, g)) =>
      var s := CommitChangesOnRepo(g, branch, message, block);
      Success(Outcome(i1.(git := Some(s.repo)), s.committed, s.pushed))
  }

  /** Under well-formedness, `exists?` holds exactly for a local branch or an `origin/<b>` ref. */
  lemma ExistsInWf(g: Repo, b: string)
    requires Wf(g) && !IsTrackingName(b)
    ensures Exists(g, b) <==> b in g.local || TrackingName(b) in g.tracking
  {
    TrackingNameIsTracking(b);
    assert TrackingName(b) !in g.local;
    assert b !in g.tracking;
  }

  /** `committable?` holds exactly when the index is not a sub-tree of HEAD: some path is new or edited. */
  lemma CommittableIffNotSubTree(g: Repo)
    ensures Committable(g) <==> !SubTree(g.index, HeadTree(g))
  {
    var h := HeadTree(g);
    if !SubTree(g.index, h) {
      var p :| p in g.index && !(p in h && g.index[p] == h[p]);
      if p in h {
        assert p in Changed(g);
      } else {
        assert p in Added(g);
      }
    }
    if Committable(g) {
      if Changed(g) != {} {
        var p :| p in Changed(g);
        assert !(p in h && g.index[p] == h[p]);
      } else {
        var p :| p in Added(g);
        assert p !in h;
      }
    }
  }
}
