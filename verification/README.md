# with_git_repo — a Dafny model of the commit workflow

`WithGitRepo` is a small Ruby helper around the `git` gem. You construct it
from an options hash. You call `commit_changes_to_branch(branch, message) { ... }`.
That call checks out (or creates) the branch, runs the block inside the
working copy, and stages everything. When the staged tree has a changed or
an added path, it commits with the configured author and pushes to `origin`
under the same branch name.

This project models that class as pure functions over an immutable
repository value:

- `wrappers.dfy`: module `Wrappers`. `Option` (nil or an absent key) and
  `Result` (a value, or the error Ruby would raise).
- `git_repo.dfy`: module `GitRepo`. The slice of git the class uses. The
  repository value holds:
  - local branch tips;
  - remote-tracking refs, named `origin/<branch>`;
  - the checked-out branch, which may be unborn;
  - the index and the working tree, as maps from path to contents;
  - the branch tips on `origin`;
  - the `user.name` / `user.email` config.

  `checkout`, `checkout -b`, `add`, `status.changed` / `added` / `deleted`,
  `commit`, `push` and `config` are functions over that value. They encode the
  git semantics the model assumes:
  - `add` copies the working tree into the index;
  - `status` compares the index with HEAD's tree;
  - `commit` records the index as a new commit on top of HEAD;
  - `push` sets `origin`'s branch and `origin/<b>` to the local tip;
  - `config` sets the identity.
- `with_git_repo.dfy`: module `WithGitRepo`. The class itself:
  - option defaults;
  - the lazy, memoised handle;
  - `exists?`, `checkout_existing`, `create_and_checkout` and `checkout`;
  - `committable?`;
  - the workflow, both on a given handle (`CommitChangesOnRepo`) and on an
    instance (`CommitChangesToBranch`).
- `workflow_properties.dfy`: module `WorkflowProperties`. Lemmas that relate
  several calls. They cover the clean-tree no-op, idempotence, building on an
  existing branch, the specs' push scenarios, and author identity from
  construction to commit.
- `history.dfy`: module `History`. Commit history across a series of calls on
  one branch. Each committable call adds exactly one commit and a no-op call
  adds none. When `origin`'s branch is behind the tip the workflow checks out
  (`RemoteIsBehind`), the calls only fast-forward it. A fresh clone meets that
  condition. The model's push itself overwrites `origin`'s branch
  unconditionally.

The caller's block is a total function `Tree -> Tree` on the working tree.
The clone done by `default_git` is I/O. So the caller passes in its outcome:
`cloned: Option<Repo>`, where None means `Git.clone` raised.

Behaviour of the program that a reader might not expect:
- A missing `:clone_url` key raises `KeyError` at construction. A nil URL
  fails only when the handle is first needed.
- A mutation that only deletes files is not committed. `committable?` looks
  only at changed and added paths. The deletions stay staged in the index, and
  no commit or push happens.

## Model

| member | source | states |
|---|---|---|
| WithGitRepo.New | lib/with_git_repo.rb:5-17 | A missing `:clone_url` key is a `KeyError`; a present key, nil or not, is kept. An omitted author name or email becomes `with_git_repo` / `with_git_repo@everypolitician.org`; a supplied one is used unchanged; `:git` seeds the handle |
| WithGitRepo.DefaultGit | lib/with_git_repo.rb:55-60 | The handle exists exactly when there is a URL and the clone succeeded. It is the clone with `user.name` / `user.email` set to the instance's author identity and nothing else altered |
| WithGitRepo.Git | lib/with_git_repo.rb:28-30 | An existing handle is returned as is, and no clone is attempted. Otherwise the handle is exactly `default_git`'s configured clone, memoised in the instance. A clone failure is `CloneFailed` |
| WorkflowProperties.GitIsMemoised | lib/with_git_repo.rb:28-30 | After the first successful `git`, later calls return the same handle and instance whatever a clone would now produce |
| WithGitRepo.ExistsInWf | lib/with_git_repo.rb:51-53 | `exists?(b)` (`branches[b]` or `branches["origin/b"]`) holds exactly when `b` is a local branch or `origin/b` is a remote-tracking ref |
| WithGitRepo.CheckoutExisting | lib/with_git_repo.rb:43-45 | Returns false (None) exactly when neither a local `b` nor `origin/b` exists. Otherwise `b` is checked out at its existing tip: the local one, or `origin/b`'s when only that exists. Re-checking out the current, born branch changes nothing; otherwise the copy is clean on that tip. Tracking refs, remote and identity are unchanged |
| WithGitRepo.CreateAndCheckout | lib/with_git_repo.rb:47-49 | The new branch becomes current at the old HEAD commit (still unborn on an unborn HEAD). Every other branch keeps its tip. The index, working tree, tracking refs, remote and identity are unchanged |
| WithGitRepo.Checkout | lib/with_git_repo.rb:38-41 | nil branch: the repository is unchanged. An existing name is checked out at its existing tip, so only a remote-only branch gains a local ref. Unless it was already the current, born branch, the copy is clean on that tip. Any other name is created at the old HEAD and becomes current. Remote, tracking refs and identity are untouched; well-formedness is kept |
| WithGitRepo.CommittableIffNotSubTree | lib/with_git_repo.rb:34-36 | `committable?` (some changed or added path) holds exactly when the index is not a sub-tree of HEAD's tree |
| WorkflowProperties.DeletionOnlyNotCommittable | lib/with_git_repo.rb:34-36 | When the index is HEAD's tree minus some paths, it is not committable, although git reports exactly those paths as deleted |
| WithGitRepo.CommitChangesOnRepo | lib/with_git_repo.rb:19-24 | The branch ends up checked out, or stays current for nil. The index equals the block's working tree. A commit happens exactly when that tree is not a sub-tree of the checked-out HEAD, and a push happens exactly when a commit does. With no commit, the branch tips, remote and tracking refs are unchanged. With a commit, the new tip is the staged tree with the message, the configured author and the old HEAD as parent; `origin` and `origin/<branch>` hold it and the copy is clean. Other branches keep their tips, and no branch other than the current one is added |
| WithGitRepo.CommitChangesToBranch | lib/with_git_repo.rb:19-30 | It fails with `CloneFailed` exactly when there is no handle and none can be cloned. Otherwise it runs `CommitChangesOnRepo` on the handle (the existing one, or `default_git`'s configured clone): the instance keeps the resulting repository as its handle and reports that run's commit and push. The readers are unchanged. A commit carries the message, the staged tree and the handle's identity (the instance's own for a handle it cloned), and it is the remote's tip of that branch |
| WorkflowProperties.UnchangedTreeIsNoOp | lib/with_git_repo.rb:23 | A block that leaves a clean checked-out copy unchanged produces no commit and no push. The repository is left exactly as checkout left it, with HEAD and remote unchanged |
| WorkflowProperties.CheckoutAfterRunIsNoOp | lib/with_git_repo.rb:38-53 | Checking the same branch out again right after a run changes nothing, including a branch created on an unborn HEAD |
| WorkflowProperties.SecondRunIsNoOp | lib/with_git_repo.rb:19-24 | When the block writes the same content again, a second run on the same branch commits nothing, pushes nothing, and leaves the repository exactly as the first run left it |
| WorkflowProperties.ExistingBranchBuildsOnItsTip | spec/with_git_repo_spec.rb:104-116 | After a run that committed to `b`, a further committing run on `b` makes a commit whose parent is the first run's commit. The existing branch is reused, not recreated |
| WorkflowProperties.WrittenFileIsPushed | spec/with_git_repo_spec.rb:80-116 | Writing a file the branch does not already hold with that content gives a commit and a push, on a new or an existing branch. The remote's branch and `origin/<b>` both hold a commit with the message and the written contents |
| WorkflowProperties.NewInstanceCommitsWithConfiguredAuthor | spec/with_git_repo_spec.rb:119-146 | Construct without `:git` from a URL and a successful clone. The run succeeds, and any commit it makes is authored with the supplied name and email, or the defaults |
| History.RunAll | lib/with_git_repo.rb:19-24 | Running a series of calls on `b` keeps the repository well-formed, leaves `b` checked out when there was at least one call, and counts at most one commit per call |
| History.AncestorTransitive | lib/with_git_repo.rb:23 | Commit ancestry (through parents, as `commit` links a new commit to the old HEAD) is transitive |
| History.RunFastForwards | lib/with_git_repo.rb:19-24 | If `origin`'s `b` is behind the tip that would be checked out, one call keeps it so. Any push it does is a fast-forward: the old remote tip is an ancestor of the new one |
| History.RemoteOnlyFastForwards | lib/with_git_repo.rb:19-24 | When `origin`'s `b` starts behind the checked-out tip (`RemoteIsBehind`), it only moves forward across any series of calls on `b`: its original tip stays in the history of its final tip |
| History.RunDepth | lib/with_git_repo.rb:22-23 | One call adds exactly one commit to the branch's history when it commits, and none when it does not |
| History.HistoryGrowsByCommits | lib/with_git_repo.rb:19-24 | After a non-empty series of calls on `b`, the history of `b` has grown by exactly the number of calls that committed |
| GitRepo.StatusPartition | lib/with_git_repo.rb:35 | `status.changed`, `status.added` and `status.deleted` are pairwise disjoint. All three are empty exactly when the index equals HEAD's tree |
| GitRepo.AddThenCommitIsClean | lib/with_git_repo.rb:22-23 | After `git add` then `git commit`, the status is empty and the copy is clean. HEAD's tree is the working tree that was staged, and the new commit's parent is the old HEAD |
| GitRepo.PushIdempotent | lib/with_git_repo.rb:23 | Pushing a branch twice is the same as pushing it once. After a push, the local branch, `origin`'s branch and `origin/<b>` hold the same commit |
| GitRepo.ConfigLastWins | lib/with_git_repo.rb:57-58 | Configuring the identity twice is the same as configuring it once with the later name and email |
| History.FreshCloneIsBehind | lib/with_git_repo.rb:56 | In a fresh clone (every remote branch has its `origin/<b>` ref, and local branches sit at the remote's tips), `origin`'s copy of any branch is behind the tip the workflow checks out |
| History.FreshCloneOnlyFastForwards | lib/with_git_repo.rb:19-24 | From a fresh clone, any series of calls on `b` leaves `origin`'s original tip of `b` in the history of its final tip |
| GitRepo.TrackingNameIsTracking | lib/with_git_repo.rb:52 | `origin/<b>` is in the remote-tracking namespace and differs from `b` |
| GitRepo.GitCheckout | lib/with_git_repo.rb:44 | `git checkout b` makes `b` current. A branch known only as `origin/b` gets a local ref at that tip. Re-checking out the current, born branch changes nothing; otherwise the copy is clean on the new tip |
| GitRepo.GitCheckoutNewBranch | lib/with_git_repo.rb:48 | `git checkout -b b` makes `b` current at the unchanged HEAD commit, and the index and working tree are kept |

## Left out

- Cloning, the temporary directory and network transport. The clone's outcome
  is a parameter (`cloned`). Clone failures appear only as `CloneFailed`.
- `git.chdir { yield }`. The process working directory is ambient state, so
  the block is a function on the working-tree map. A block that raises is not
  modelled.
- How git computes `add` and `status`. `changed` and `added` are derived from
  the index and HEAD's tree; ignored and untracked-but-unstaged files are not
  modelled.
- GitCheckout: switching to another branch replaces the index and working tree
  with the tip's tree. That is git's behaviour from a clean working copy.
  Carrying local changes across the switch, or refusing because of them, is not
  modelled.
- Checkout, CheckoutExisting, ExistsInWf, CommitChangesOnRepo: the branch
  argument must not itself begin with `origin/`. For such a name `origin/x` there are two cases:
  - If the tracking ref `origin/x` exists, `exists?` holds and git detaches
    HEAD there. Detached HEADs are not part of this model.
  - Otherwise `exists?` normally fails. `create_and_checkout` then runs
    `git checkout -b origin/x`. That makes a local branch inside the `origin/`
    namespace, which the model's well-formedness rules out.

  The repository must also be well-formed: local branch names are outside the
  `origin/` namespace.
- CommitChangesToBranch: the same branch-name restriction as
  CommitChangesOnRepo.
- Push with a nil branch. The source passes nil to `push('origin', branch)`.
  The model pushes the current branch under its own name; the git gem's
  handling of a nil refspec is not part of this model.
- History.RemoteOnlyFastForwards: holds only when `origin`'s `b` starts behind
  the checked-out tip (`RemoteIsBehind`). Otherwise the model's push overwrites
  `origin`'s `b`, where git would reject the non-fast-forward push.
- Failures raised by git are not modelled: invalid branch names, a rejected
  (non-fast-forward) push, an unreachable remote. A push whose remote branch is
  not behind the checked-out tip is accepted by the model; git would reject it. Checkout, commit and push
  always succeed in the model.
- WithGitRepo.New: an explicit nil `:user_name` or `:user_email` is not
  modelled. The source would keep nil; the model's author options are strings.
- `with_git_repo/version` and `spec/spec_helper.rb`: test harness and version
  constant, with no behaviour to model.
