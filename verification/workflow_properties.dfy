/**
 * Properties of the workflow that relate several calls, or that tie
 * construction to what ends up on the remote.
 */
module WorkflowProperties {
  import opened Wrappers
  import opened GitRepo
  import opened WithGitRepo

  /** The block of the specs: write `content` to the file at `path`. */
  function WriteFile(path: Path, content: string): Tree -> Tree {
    t => t[path := content]
  }

  /** A mutation that only deletes files is not committable, although git reports the deletions. */
  lemma DeletionOnlyNotCommittable(g: Repo, removed: set<Path>)
    requires g.index == HeadTree(g) - removed
    ensures !Committable(g)
    ensures Deleted(g) == removed * HeadTree(g).Keys
  {
    CommittableIffNotSubTree(g);
  }

  /** A block that leaves a clean working copy as it is commits nothing, pushes nothing and changes nothing. */
  lemma UnchangedTreeIsNoOp(g: Repo, branch: Option<string>, message: string, block: Tree -> Tree)
    requires Wf(g) && BranchArgOk(branch)
    requires Clean(Checkout(g, branch))
    requires block(Checkout(g, branch).worktree) == Checkout(g, branch).worktree
    ensures var s := CommitChangesOnRepo(g, branch, message, block);
            && !s.committed && !s.pushed
            && s.repo == Checkout(g, branch)
            && HeadCommit(s.repo) == HeadCommit(Checkout(g, branch))
            && s.repo.remote == g.remote
  {
    var c := Checkout(g, branch);
    var s := CommitChangesOnRepo(g, branch, message, block);
    assert !s.committed;
    assert s.repo.local == c.local;
  }

  /** Checking the same branch out again right after a run changes nothing. */
  lemma CheckoutAfterRunIsNoOp(g: Repo, branch: Option<string>, message: string, block: Tree -> Tree)
    requires Wf(g) && BranchArgOk(branch)
    ensures var s := CommitChangesOnRepo(g, branch, message, block);
            Checkout(s.repo, branch) == s.repo
  {
    var s := CommitChangesOnRepo(g, branch, message, block);
    if branch.Some? {
      var b := branch.value;
      assert s.repo.current == b;
      if b !in s.repo.local {
        // only possible for a branch created on an unborn HEAD and not committed to
        assert !s.committed;
        var c := Checkout(g, branch);
        assert s.repo.local == c.local;
        assert b !in g.local;
        assert TrackingName(b) !in g.tracking;
        assert HeadCommit(s.repo).None?;
      }
    }
  }

  /**
   * Idempotence: when the block writes the same content again, a second run
   * on the same branch commits nothing and leaves the repository as the first
   * run left it.
   */
  lemma SecondRunIsNoOp(g: Repo, branch: Option<string>, m1: string, m2: string, block: Tree -> Tree)
    requires Wf(g) && BranchArgOk(branch)
    requires block(block(Checkout(g, branch).worktree)) == block(Checkout(g, branch).worktree)
    ensures var s1 := CommitChangesOnRepo(g, branch, m1, block);
            var s2 := CommitChangesOnRepo(s1.repo, branch, m2, block);
            && !s2.committed && !s2.pushed
            && s2.repo == s1.repo
  {
    var c := Checkout(g, branch);
    var s1 := CommitChangesOnRepo(g, branch, m1, block);
    CheckoutAfterRunIsNoOp(g, branch, m1, block);
    var s2 := CommitChangesOnRepo(s1.repo, branch, m2, block);
    assert s2.repo.worktree == s1.repo.worktree;
    if s1.committed {
      assert HeadTree(s1.repo) == s1.repo.worktree;
    } else {
      assert HeadTree(s1.repo) == HeadTree(c);
    }
    assert !s2.committed;
  }

  /**
   * A second run on a branch the first run committed to builds on that
   * commit: the existing branch is checked out at its tip, not recreated.
   */
  lemma ExistingBranchBuildsOnItsTip(g: Repo, b: string, m1: string, m2: string, first: Tree -> Tree, second: Tree -> Tree)
    requires Wf(g) && !IsTrackingName(b)
    requires CommitChangesOnRepo(g, Some(b), m1, first).committed
    ensures var s1 := CommitChangesOnRepo(g, Some(b), m1, first);
            var s2 := CommitChangesOnRepo(s1.repo, Some(b), m2, second);
            s2.committed ==> s2.repo.local[b].parent == Some(s1.repo.local[b])
  {
    CheckoutAfterRunIsNoOp(g, Some(b), m1, first);
  }

  /**
   * The specs' scenario: writing a file whose content the branch does not
   * already hold commits it with the given message and pushes it, so that
   * `origin/<b>` and the remote's `b` both hold the written file.
   */
  lemma WrittenFileIsPushed(g: Repo, b: string, message: string, path: Path, content: string)
    requires Wf(g) && !IsTrackingName(b)
    requires !(path in HeadTree(Checkout(g, Some(b))) && HeadTree(Checkout(g, Some(b)))[path] == content)
    ensures var s := CommitChangesOnRepo(g, Some(b), message, WriteFile(path, content));
            && s.committed && s.pushed
            && b in s.repo.remote && TrackingName(b) in s.repo.tracking
            && s.repo.tracking[TrackingName(b)] == s.repo.remote[b]
            && s.repo.remote[b].message == message
            && path in s.repo.remote[b].tree && s.repo.remote[b].tree[path] == content
  {
    var c := Checkout(g, Some(b));
    var s := CommitChangesOnRepo(g, Some(b), message, WriteFile(path, content));
    assert path in s.repo.worktree && s.repo.worktree[path] == content;
    assert !SubTree(s.repo.worktree, HeadTree(c));
  }

  /**
   * From construction to commit: with no `:git` option, the handle is cloned
   * and configured with the author options, falling back to the defaults, so
   * any commit the workflow makes carries that identity.
   */
  lemma NewInstanceCommitsWithConfiguredAuthor(o: Options, cloned: Repo, branch: Option<string>, message: string,
                                               block: Tree -> Tree)
    requires o.cloneUrl.Some? && o.cloneUrl.value.Some? && o.git.None?
    requires Wf(cloned) && BranchArgOk(branch)
    ensures New(o).Success?
    ensures var r := CommitChangesToBranch(New(o).value, Some(cloned), branch, message, block);
            && r.Success?
            && (r.value.committed ==>
                  var g := r.value.self.git.value;
                  && g.local[g.current].authorName == o.userName.GetOr(DefaultUserName)
                  && g.local[g.current].authorEmail == o.userEmail.GetOr(DefaultUserEmail))
  {
  }

  /** The handle is created once: after the first use, later uses return it whatever a clone would give. */
  lemma GitIsMemoised(i: Instance, cloned: Option<Repo>, later: Option<Repo>)
    requires Git(i, cloned).Success?
    ensures var (i1, g) := Git(i, cloned).value;
            Git(i1, later) == Success((i1, g))
  {
  }
}
