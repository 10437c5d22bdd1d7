/**
 * An abstract model of the slice of a git working copy that the workflow
 * touches through the git gem: branch heads, remote-tracking refs, the
 * checked-out branch, the index, the working tree, the heads on the `origin`
 * remote, and the configured author identity. Every git command the workflow
 * issues is a pure function from one repository value to the next.
 */
module GitRepo {
  import opened Wrappers

  /** A file path inside the working copy. */
  type Path = string

  /** A snapshot of files: path to file contents. Used for commit trees, the index and the working tree. */
  type Tree = map<Path, string>

  /** The only remote the workflow talks to. */
  const Origin: string := "origin"

  /** A commit: its tree, message, author identity and parent (None for a root commit). */
  datatype Commit = Commit(tree: Tree, message: string, authorName: string, authorEmail: string, parent: Option<Commit>)

  datatype Repo = Repo(
    local: map<string, Commit>,     // local branch name to its tip
    tracking: map<string, Commit>,  // remote-tracking ref `origin/<branch>` to its recorded tip
    current: string,                // the checked-out branch; unborn when it is not in `local`
    index: Tree,                    // the staging area
    worktree: Tree,                 // the files on disk
    remote: map<string, Commit>,    // branch name to tip, as held by the `origin` remote
    userName: string,               // `user.name` config
    userEmail: string               // `user.email` config
  )

  /** The remote-tracking ref name that records `origin`'s copy of `branch`. */
  function TrackingName(branch: string): (n: string)
    ensures |n| == |Origin| + 1 + |branch|
    ensures n[|Origin| + 1..] == branch
  {
    Origin + "/" + branch
  }

  /** Names in the `origin/` namespace belong to remote-tracking refs. */
  predicate IsTrackingName(name: string) {
    Origin + "/" <= name
  }

  /**
   * Repository well-formedness: remote-tracking refs live in the `origin/`
   * namespace and local branches (including the checked-out one) do not.
   */
  predicate Wf(g: Repo) {
    && (forall n :: n in g.tracking ==> IsTrackingName(n))
    && (forall n :: n in g.local ==> !IsTrackingName(n))
    && !IsTrackingName(g.current)
  }

  /** `git.branches[name]`: whether a local branch or a remote-tracking ref has this name. */
  predicate HasBranch(g: Repo, name: string) {
    name in g.local || name in g.tracking
  }

  /** The commit HEAD points at, or None while the current branch is unborn. */
  function HeadCommit(g: Repo): (c: Option<Commit>)
    ensures c.Some? <==> g.current in g.local
    ensures c.Some? ==> c.value == g.local[g.current]
  {
    if g.current in g.local then Some(g.local[g.current]) else None
  }

  /** The tree of HEAD; an unborn branch has the empty tree. */
  function HeadTree(g: Repo): (t: Tree)
    ensures HeadCommit(g).Some? ==> t == HeadCommit(g).value.tree
    ensures HeadCommit(g).None? ==> t == map[]
  {
    match HeadCommit(g)
    case Some(c) => c.tree
    case None => map[]
  }

  /** Every file of `a` is in `b` with the same contents (`a` may lack files of `b`). */
  predicate SubTree(a: Tree, b: Tree) {
    forall p :: p in a ==> p in b && a[p] == b[p]
  }

  /** Index and working tree both equal HEAD's tree. */
  predicate Clean(g: Repo) {
    g.index == g.worktree == HeadTree(g)
  }

  /** Switch HEAD to the local branch `b`; index and working tree take its tip's tree. */
  function Switch(g: Repo, b: string): (r: Repo)
    requires b in g.local
    ensures r.current == b && r.local == g.local
    ensures r.tracking == g.tracking && r.remote == g.remote
    ensures r.userName == g.userName && r.userEmail == g.userEmail
    ensures b == g.current ==> r == g
    ensures b != g.current ==> Clean(r)
  {
    if b == g.current then g
    else g.(current := b, index := g.local[b].tree, worktree := g.local[b].tree)
  }

  /**
   * `git checkout <b>` for a name that exists: a local branch is switched to;
   * a branch known only as `origin/<b>` first gets a local branch at that
   * tip, whose tree then fills the index and the working tree.
   */
  function GitCheckout(g: Repo, b: string): (r: Repo)
    requires b in g.local || TrackingName(b) in g.tracking
    ensures r.current == b && b in r.local
    ensures b in g.local ==> r.local == g.local
    ensures b !in g.local ==> r.local == g.local[b := g.tracking[TrackingName(b)]]
    ensures b in g.local && b == g.current ==> r == g
    ensures !(b in g.local && b == g.current) ==> Clean(r)
    ensures r.tracking == g.tracking && r.remote == g.remote
    ensures r.userName == g.userName && r.userEmail == g.userEmail
  {
    if b in g.local then Switch(g, b)
    else
      var tip := g.tracking[TrackingName(b)];
      g.(local := g.local[b := tip], current := b, index := tip.tree, worktree := tip.tree)
  }

  /**
   * `git checkout -b <b>`: a new branch at the current HEAD commit becomes
   * the checked-out branch; index and working tree are kept. On an unborn
   * HEAD the new branch is unborn too.
   */
  function GitCheckoutNewBranch(g: Repo, b: string): (r: Repo)
    requires b !in g.local
    ensures r.current == b
    ensures HeadCommit(r) == HeadCommit(g)
    ensures HeadCommit(g).Some? ==> r.local == g.local[b := HeadCommit(g).value]
    ensures HeadCommit(g).None? ==> r.local == g.local
    ensures r.index == g.index && r.worktree == g.worktree
    ensures r.tracking == g.tracking && r.remote == g.remote
    ensures r.userName == g.userName && r.userEmail == g.userEmail
  {
    match HeadCommit(g)
    case Some(c) => g.(local := g.local[b := c], current := b)
    case None => g.(current := b)
  }

  /** `git add`: stage every working-tree change, additions, edits and deletions alike. */
  function GitAdd(g: Repo): (r: Repo)
    ensures r.index == g.worktree
    ensures r.(index := g.index) == g  // nothing else changes
  {
    g.(index := g.worktree)
  }

  /** `status.changed`: paths in both the index and HEAD whose contents differ. */
  function Changed(g: Repo): (s: set<Path>)
    ensures forall p :: p in s <==> p in g.index && p in HeadTree(g) && g.index[p] != HeadTree(g)[p]
  {
    var h := HeadTree(g);
    set p | p in g.index && p in h && g.index[p] != h[p]
  }

  /** `status.added`: paths in the index that HEAD does not have. */
  function Added(g: Repo): (s: set<Path>)
    ensures forall p :: p in s <==> p in g.index && p !in HeadTree(g)
  {
    var h := HeadTree(g);
    set p | p in g.index && p !in h
  }

  /** `status.deleted`: paths HEAD has and the index does not. */
  function Deleted(g: Repo): (s: set<Path>)
    ensures forall p :: p in s <==> p in HeadTree(g) && p !in g.index
  {
    var h := HeadTree(g);
    set p | p in h && p !in g.index
  }

  /**
   * `git commit -m <message>`: a commit of the index, authored with the
   * configured identity, whose parent is the old HEAD, becomes the tip of
   * the current branch.
   */
  function GitCommit(g: Repo, message: string): (r: Repo)
    ensures r.current == g.current && r.current in r.local
    ensures r.local[r.current] == Commit(g.index, message, g.userName, g.userEmail, HeadCommit(g))
    ensures forall n :: n in g.local && n != g.current ==> n in r.local && r.local[n] == g.local[n]
    ensures r.local.Keys == g.local.Keys + {g.current}
    ensures r.index == g.index && r.worktree == g.worktree
    ensures r.tracking == g.tracking && r.remote == g.remote
    ensures r.userName == g.userName && r.userEmail == g.userEmail
  {
    var c := Commit(g.index, message, g.userName, g.userEmail, HeadCommit(g));
    g.(local := g.local[g.current := c])
  }

  /**
   * `git push origin <b>`: `origin`'s branch `b` takes the local tip of `b`,
   * and the remote-tracking ref `origin/<b>` records it.
   */
  function GitPush(g: Repo, b: string): (r: Repo)
    requires b in g.local
    ensures r.remote == g.remote[b := g.local[b]]
    ensures r.tracking == g.tracking[TrackingName(b) := g.local[b]]
    ensures r.local == g.local && r.current == g.current
    ensures r.index == g.index && r.worktree == g.worktree
    ensures r.userName == g.userName && r.userEmail == g.userEmail
  {
    g.(remote := g.remote[b := g.local[b]], tracking := g.tracking[TrackingName(b) := g.local[b]])
  }

  /** `git config user.name <name>` followed by `git config user.email <email>`. */
  function GitConfigIdentity(g: Repo, name: string, email: string): (r: Repo)
    ensures r.userName == name && r.userEmail == email
    ensures r.(userName := g.userName, userEmail := g.userEmail) == g  // nothing else changes
  {
    g.(userName := name, userEmail := email)
  }

  /** `origin/<b>` is always a remote-tracking name, and never equals `b`. */
  lemma TrackingNameIsTracking(b: string)
    ensures IsTrackingName(TrackingName(b))
    ensures TrackingName(b) != b
  {
    assert (Origin + "/" + b)[..|Origin| + 1] == Origin + "/";
    assert |TrackingName(b)| > |b|;
  }

  /**
   * The three status lists are pairwise disjoint, and all three are empty
   * exactly when the index equals HEAD's tree.
   */
  lemma StatusPartition(g: Repo)
    ensures Changed(g) !! Added(g) && Changed(g) !! Deleted(g) && Added(g) !! Deleted(g)
    ensures (Changed(g) == {} && Added(g) == {} && Deleted(g) == {}) <==> g.index == HeadTree(g)
  {
    var h := HeadTree(g);
    if Changed(g) == {} && Added(g) == {} && Deleted(g) == {} {
      forall p | p in g.index
        ensures p in h && g.index[p] == h[p]
      {
        assert p !in Added(g) && p !in Changed(g);
      }
      forall p | p in h
        ensures p in g.index
      {
        assert p !in Deleted(g);
      }
      assert g.index.Keys == h.Keys;
    }
  }

  /**
   * `git add` followed by `git commit` leaves nothing to report: the status
   * is empty, the working copy is clean on the new commit, and that commit's
   * parent is the old HEAD.
   */
  lemma AddThenCommitIsClean(g: Repo, message: string)
    ensures var r := GitCommit(GitAdd(g), message);
            && Changed(r) == {} && Added(r) == {} && Deleted(r) == {}
            && Clean(r)
            && HeadTree(r) == g.worktree
            && HeadCommit(r).Some? && HeadCommit(r).value.parent == HeadCommit(g)
  {
    var r := GitCommit(GitAdd(g), message);
    StatusPartition(r);
  }

  /**
   * Pushing the same branch twice is the same as pushing it once, and after
   * a push the local branch, the remote's branch and `origin/<b>` agree.
   */
  lemma PushIdempotent(g: Repo, b: string)
    requires b in g.local
    ensures GitPush(GitPush(g, b), b) == GitPush(g, b)
    ensures var r := GitPush(g, b);
            && b in r.remote && TrackingName(b) in r.tracking
            && r.local[b] == r.remote[b] == r.tracking[TrackingName(b)]
  {
  }

  /** Configuring the identity twice is the same as configuring it once with the later values. */
  lemma ConfigLastWins(g: Repo, name1: string, email1: string, name2: string, email2: string)
    ensures GitConfigIdentity(GitConfigIdentity(g, name1, email1), name2, email2) == GitConfigIdentity(g, name2, email2)
  {
  }
}
