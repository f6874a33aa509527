/** Autonomous continuation from one root is bounded: in jobs, in depth and in provider calls. */
module Autonomy {
  import opened Attempts
  import opened Jobs
  import opened Eligibility
  import opened Tables
  import opened Protocol
  import opened Changes
  import opened Histories
  import opened Chains
  import opened Invariants
  import Retries
  import Revocation

  lemma AtMostThree(w: World)
    requires Inv(w)
    ensures forall i :: 0 <= i < |w.db.jobs| ==> |w.db.attempts[i]| <= MAX_ATTEMPTS
  {
    hide Job.Valid, Fenced, Sequenced, AvailabilityTells, Concluded, Accounted, Chained;
    forall i | 0 <= i < |w.db.jobs| ensures |w.db.attempts[i]| <= MAX_ATTEMPTS {
      assert RowSound(w, i);
    }
  }

  lemma DepthWithin(job: Job)
    requires job.Valid()
    ensures 0 <= job.origin.depth <= job.origin.maxDepth && job.origin.maxJobs >= 1 && job.origin.maxDepth <= 10 && job.origin.maxJobs <= 100
  {
  }

  /** Calls really made for the first n rows that belong to a root. */
  ghost function CallsMade(w: World, root: nat, n: nat): nat
    requires Aligned(w) && n <= |w.db.jobs|
  {
    if n == 0 then 0
    else CallsMade(w, root, n - 1)
         + (if w.db.jobs[n - 1].origin.root == root then Retries.Made(w.history.consumed[n - 1]) else 0)
  }

  /** A call is made for a reservation, and for each at most once. */
  lemma {:induction false} CallsNeedAttempts(w: World, root: nat, n: nat)
    requires Inv(w) && n <= |w.db.jobs|
    ensures CallsMade(w, root, n) <= ChainCalls(w.db.jobs, w.db.attempts, root, n)
  {
    hide RowSound, Chained, Retries.Made;
    if n > 0 {
      CallsNeedAttempts(w, root, n - 1);
      RowLengths(w, n - 1);
    }
  }

  /** In every reachable state a root's chain, itself included, has at most the root's jobs, none deeper than the root's
      depth, all with exactly the root's limits; so it never makes more than three reservations, nor more
      than three calls, per allowed job. */
  lemma ChainStops(db: Db, events: seq<Event>, root: nat)
    requires db.jobs == [] && db.attempts == [] && HonestRun(Start(db), events)
    requires root < |Run(Start(db), events).db.jobs| && Run(Start(db), events).db.jobs[root].origin.root == root
    ensures var after := Run(Start(db), events).db;
            var o := after.jobs[root].origin;
            && |Members(after.jobs, Chain(root))| <= o.maxJobs
            && (forall i :: i in Members(after.jobs, Chain(root)) ==>
                  && after.jobs[i].origin.depth <= o.maxDepth
                  && after.jobs[i].origin.maxDepth == o.maxDepth && after.jobs[i].origin.maxJobs == o.maxJobs)
            && CallsMade(Run(Start(db), events), root, |after.jobs|)
               <= ChainCalls(after.jobs, after.attempts, root, |after.jobs|) <= 3 * o.maxJobs
            && o.maxDepth <= 10 && o.maxJobs <= 100
  {
    hide RowSound, Run, HonestRun, Job.Valid, CallsMade;
    var w := Run(Start(db), events);
    var jobs := w.db.jobs;
    assert WithinLimit(jobs, root);
    AtMostThree(w);
    CallsNeedAttempts(w, root, |jobs|);
    CallsBound(jobs, w.db.attempts, root, |jobs|);
    assert jobs[..|jobs|] == jobs;
    Revocation.RowValid(w, root);
    DepthWithin(jobs[root]);
    forall i | i in Members(jobs, Chain(root))
      ensures jobs[i].origin.depth <= jobs[root].origin.maxDepth && Linked(jobs, i)
    {
      assert Linked(jobs, i);
      Revocation.RowValid(w, i);
      DepthWithin(jobs[i]);
    }
  }
}
