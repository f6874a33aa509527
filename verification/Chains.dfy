/** Chains: every continuation hangs from one root, inherits its limits and counts against them. */
module Chains {
  import opened Basics
  import opened Attempts
  import opened Jobs
  import opened Eligibility
  import opened Admission
  import opened Tables
  import opened Growth

  /** A row's root is a root with exactly the row's limits. */
  ghost predicate Linked(jobs: seq<Job>, i: nat)
    requires i < |jobs|
  {
    var o := jobs[i].origin;
    && o.root < |jobs|
    && var root := jobs[o.root].origin;
    && root.root == o.root && root.maxDepth == o.maxDepth && root.maxJobs == o.maxJobs
  }

  ghost predicate WithinLimit(jobs: seq<Job>, r: nat)
    requires r < |jobs|
  {
    jobs[r].origin.root == r ==> |Members(jobs, Chain(r))| <= jobs[r].origin.maxJobs
  }

  ghost predicate Chained(jobs: seq<Job>) {
    forall i :: 0 <= i < |jobs| ==> Linked(jobs, i) && WithinLimit(jobs, i)
  }

  /** Updates that keep what ranking reads keep every chain. */
  lemma SameRankKeepsChains(jobs: seq<Job>, after: seq<Job>)
    requires Chained(jobs) && |after| == |jobs|
    requires forall i :: 0 <= i < |jobs| ==> SameRank(after[i].origin, jobs[i].origin)
    ensures Chained(after)
  {
    forall i | 0 <= i < |jobs| ensures Linked(after, i) && WithinLimit(after, i) {
      assert Linked(jobs, i) && WithinLimit(jobs, i);
      assert Members(after, Chain(i)) == Members(jobs, Chain(i));
    }
  }

  lemma GrowthKeepsChains(before: Db, after: Db, root: Option<nat>)
    requires Chained(before.jobs) && Grew(before, after, root)
    ensures Chained(after.jobs)
  {
    hide Job.Valid, Members;
    var jobs, rows := before.jobs, after.jobs;
    assert forall i :: 0 <= i < |jobs| ==> rows[..|jobs|][i] == rows[i] == jobs[i];
    forall i | 0 <= i < |rows| ensures Linked(rows, i) && WithinLimit(rows, i) {
      if i < |jobs| {
        assert Linked(jobs, i) && WithinLimit(jobs, i);
        MembersGrow(before, after, root, i);
      } else {
        assert NewRow(rows, i, root);
        NewRootAlone(before, after, root, i);
        if root.Some? {
          assert Linked(jobs, root.value);
        }
      }
    }
  }

  lemma RootsOfNew(before: Db, after: Db, root: Option<nat>)
    requires Grew(before, after, root)
    ensures forall i :: |before.jobs| <= i < |after.jobs| ==>
              && after.jobs[i].origin.root == (if root.Some? then root.value else i)
              && (root.Some? ==> root.value < |before.jobs|) && after.jobs[i].origin.maxJobs >= 1
  {
    hide Members;
    forall i | |before.jobs| <= i < |after.jobs|
      ensures after.jobs[i].origin.root == (if root.Some? then root.value else i) && after.jobs[i].origin.maxJobs >= 1
    {
      assert NewRow(after.jobs, i, root);
    }
  }

  /** An old root gains members only if it is the extended one, and then within its limit. */
  lemma MembersGrow(before: Db, after: Db, root: Option<nat>, r: nat)
    requires Grew(before, after, root) && r < |before.jobs|
    ensures if root == Some(r) then |Members(after.jobs, Chain(r))| <= |Members(before.jobs, Chain(r))| + |after.jobs| - |before.jobs|
            else Members(after.jobs, Chain(r)) == Members(before.jobs, Chain(r))
  {
    hide Job.Valid;
    var jobs, rows := before.jobs, after.jobs;
    assert forall i :: 0 <= i < |jobs| ==> rows[..|jobs|][i] == rows[i] == jobs[i];
    RootsOfNew(before, after, root);
    if root == Some(r) {
      SubsetSize(Members(rows, Chain(r)), Members(jobs, Chain(r)) + Range(|jobs|, |rows|));
    } else {
      assert Members(rows, Chain(r)) == Members(jobs, Chain(r));
    }
  }

  lemma NewRootAlone(before: Db, after: Db, root: Option<nat>, i: nat)
    requires Chained(before.jobs) && Grew(before, after, root) && |before.jobs| <= i < |after.jobs|
    ensures WithinLimit(after.jobs, i)
  {
    hide Job.Valid;
    var jobs, rows := before.jobs, after.jobs;
    assert forall k :: 0 <= k < |jobs| ==> rows[..|jobs|][k] == rows[k] == jobs[k];
    RootsOfNew(before, after, root);
    forall k | 0 <= k < |jobs| ensures rows[k].origin.root < |jobs| {
      assert Linked(jobs, k);
    }
    if rows[i].origin.root == i {
      assert Members(rows, Chain(i)) == {i};
    }
  }

  // ---- Calls made for one chain ----

  /** Attempts of the first n rows that belong to a root. */
  function ChainCalls(jobs: seq<Job>, attempts: seq<seq<Attempt>>, root: nat, n: nat): nat
    requires n <= |jobs| && n <= |attempts|
  {
    if n == 0 then 0
    else ChainCalls(jobs, attempts, root, n - 1) + (if jobs[n - 1].origin.root == root then |attempts[n - 1]| else 0)
  }

  lemma {:induction false} CallsBound(jobs: seq<Job>, attempts: seq<seq<Attempt>>, root: nat, n: nat)
    requires n <= |jobs| && n <= |attempts|
    requires forall i :: 0 <= i < n ==> |attempts[i]| <= MAX_ATTEMPTS
    ensures ChainCalls(jobs, attempts, root, n) <= MAX_ATTEMPTS * |Members(jobs[..n], Chain(root))|
  {
    if n > 0 {
      CallsBound(jobs, attempts, root, n - 1);
      var shorter, longer := Members(jobs[..n - 1], Chain(root)), Members(jobs[..n], Chain(root));
      assert jobs[..n - 1] == jobs[..n][..n - 1];
      if jobs[n - 1].origin.root == root {
        assert longer == shorter + {n - 1};
      } else {
        assert longer == shorter;
      }
    }
  }
}
