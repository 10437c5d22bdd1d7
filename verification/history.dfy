/**
 * Commit history across repeated calls of the workflow on one branch: each
 * committable call adds exactly one commit and a no-op call adds none. When
 * `origin`'s branch starts behind the tip the workflow checks out
 * (`RemoteIsBehind`, which a fresh clone meets), it is only ever
 * fast-forwarded. The model's push itself overwrites unconditionally.
 */
module History {
  import opened Wrappers
  import opened GitRepo
  import opened WithGitRepo
  import opened WorkflowProperties

  /** The number of commits reachable from `c` through parents (`git rev-list --count`). */
  function Depth(c: Option<Commit>): nat
    decreases c
  {
    match c
    case None => 0
    case Some(x) => 1 + Depth(x.parent)
  }

  /** `a` is `c` or one of its ancestors. */
  predicate IsAncestorOrSelf(a: Commit, c: Commit)
    decreases c
  {
    a == c || (c.parent.Some? && IsAncestorOrSelf(a, c.parent.value))
  }

  /** One call of `commit_changes_to_branch`: its message and its block. */
  datatype Call = Call(message: string, block: Tree -> Tree)

  /**
   * Run `calls` one after another against branch `b`, returning the final
   * repository and how many of the calls made a commit.
   */
  function RunAll(g: Repo, b: string, calls: seq<Call>): (r: (Repo, nat))
    requires Wf(g) && !IsTrackingName(b)
    ensures Wf(r.0)
    ensures r.1 <= |calls|
    ensures |calls| > 0 ==> r.0.current == b
    ensures |calls| == 0 ==> r == (g, 0)
    decreases |calls|
  {
    if |calls| == 0 then (g, 0)
    else
      var s := CommitChangesOnRepo(g, Some(b), calls[0].message, calls[0].block);
      var rest := RunAll(s.repo, b, calls[1..]);
      (rest.0, rest.1 + (if s.committed then 1 else 0))
  }

  /** The ancestor relation is transitive. */
  lemma {:induction false} AncestorTransitive(a: Commit, b: Commit, c: Commit)
    requires IsAncestorOrSelf(a, b) && IsAncestorOrSelf(b, c)
    ensures IsAncestorOrSelf(a, c)
    decreases c
  {
    if b != c {
      AncestorTransitive(a, b, c.parent.value);
    }
  }

  /**
   * `origin`'s copy of `b`, when there is one, is behind (or at) the tip the
   * workflow would check out: the local branch, or `origin/<b>` when there is
   * no local branch yet.
   */
  predicate RemoteIsBehind(g: Repo, b: string) {
    b in g.remote ==>
      || (b in g.local && IsAncestorOrSelf(g.remote[b], g.local[b]))
      || (b !in g.local && TrackingName(b) in g.tracking && IsAncestorOrSelf(g.remote[b], g.tracking[TrackingName(b)]))
  }

  /**
   * The state `git clone` leaves: every remote branch has an `origin/<b>` ref
   * at its tip, and every local branch is at the remote's tip of the same name.
   */
  predicate FreshClone(g: Repo) {
    && (forall n :: n in g.remote ==> TrackingName(n) in g.tracking && g.tracking[TrackingName(n)] == g.remote[n])
    && (forall n :: n in g.local ==> n in g.remote && g.local[n] == g.remote[n])
  }

  /** A fresh clone has every remote branch behind (in fact at) the tip the workflow would check out. */
  lemma FreshCloneIsBehind(g: Repo, b: string)
    requires FreshClone(g)
    ensures RemoteIsBehind(g, b)
  {
    if b in g.remote && b !in g.local {
      assert TrackingName(b) in g.tracking && g.tracking[TrackingName(b)] == g.remote[b];
    }
  }

  /** One call keeps the remote behind the branch, and its push (if any) is a fast-forward. */
  lemma RunFastForwards(g: Repo, b: string, c: Call)
    requires Wf(g) && !IsTrackingName(b) && RemoteIsBehind(g, b)
    ensures var s := CommitChangesOnRepo(g, Some(b), c.message, c.block);
            && RemoteIsBehind(s.repo, b)
            && (b in g.remote ==> b in s.repo.remote && IsAncestorOrSelf(g.remote[b], s.repo.remote[b]))
  {
    var co := Checkout(g, Some(b));
    var s := CommitChangesOnRepo(g, Some(b), c.message, c.block);
    if b in g.remote {
      assert b in co.local && IsAncestorOrSelf(g.remote[b], co.local[b]);
      if s.committed {
        var tip := s.repo.local[b];
        assert tip.parent == Some(co.local[b]);
        assert IsAncestorOrSelf(co.local[b], tip);
        AncestorTransitive(g.remote[b], co.local[b], tip);
      }
    }
  }

  /**
   * When `origin`'s `b` starts behind the checked-out tip (`RemoteIsBehind`),
   * across any number of calls on `b` the remote's copy of `b` only moves
   * forward: its old tip stays in the history of its new tip.
   */
  lemma {:induction false} RemoteOnlyFastForwards(g: Repo, b: string, calls: seq<Call>)
    requires Wf(g) && !IsTrackingName(b) && RemoteIsBehind(g, b)
    ensures var r := RunAll(g, b, calls).0;
            && RemoteIsBehind(r, b)
            && (b in g.remote ==> b in r.remote && IsAncestorOrSelf(g.remote[b], r.remote[b]))
    decreases |calls|
  {
    if |calls| > 0 {
      var s := CommitChangesOnRepo(g, Some(b), calls[0].message, calls[0].block);
      RunFastForwards(g, b, calls[0]);
      RemoteOnlyFastForwards(s.repo, b, calls[1..]);
      var r := RunAll(g, b, calls).0;
      assert r == RunAll(s.repo, b, calls[1..]).0;
      if b in g.remote {
        AncestorTransitive(g.remote[b], s.repo.remote[b], r.remote[b]);
      }
    }
  }

  /**
   * Starting from a fresh clone, any series of calls on `b` only fast-forwards
   * `origin`'s `b`.
   */
  lemma FreshCloneOnlyFastForwards(g: Repo, b: string, calls: seq<Call>)
    requires Wf(g) && !IsTrackingName(b) && FreshClone(g)
    ensures var r := RunAll(g, b, calls).0;
            b in g.remote ==> b in r.remote && IsAncestorOrSelf(g.remote[b], r.remote[b])
  {
    FreshCloneIsBehind(g, b);
    RemoteOnlyFastForwards(g, b, calls);
  }

  /** One call adds one commit to the branch's history when it commits, and none otherwise. */
  lemma RunDepth(g: Repo, b: string, c: Call)
    requires Wf(g) && !IsTrackingName(b)
    ensures var s := CommitChangesOnRepo(g, Some(b), c.message, c.block);
            Depth(HeadCommit(s.repo)) == Depth(HeadCommit(Checkout(g, Some(b)))) + (if s.committed then 1 else 0)
  {
  }

  /**
   * After a non-empty series of calls on `b`, the branch's history has grown
   * by exactly the number of calls that committed.
   */
  lemma {:induction false} HistoryGrowsByCommits(g: Repo, b: string, calls: seq<Call>)
    requires Wf(g) && !IsTrackingName(b) && |calls| > 0
    ensures var r := RunAll(g, b, calls);
            Depth(HeadCommit(r.0)) == Depth(HeadCommit(Checkout(g, Some(b)))) + r.1
    decreases |calls|
  {
    var s := CommitChangesOnRepo(g, Some(b), calls[0].message, calls[0].block);
    RunDepth(g, b, calls[0]);
    if |calls| > 1 {
      HistoryGrowsByCommits(s.repo, b, calls[1..]);
      CheckoutAfterRunIsNoOp(g, Some(b), calls[0].message, calls[0].block);
    }
  }
}
