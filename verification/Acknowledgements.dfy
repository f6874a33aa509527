/** Leases, completions, denials and retries: for every input, the answer and the very row each of them leaves. */
module Acknowledgements {
  import opened Basics
  import opened Policies
  import opened Attempts
  import opened Jobs
  import opened Tables
  import opened Transactions
  import opened Protocol
  import opened Changes
  import opened Histories
  import opened Invariants
  import opened Authority
  import opened Decisions
  import Outcomes
  import Recheck
  import Retries
  import Settlements
  import Store

  // ---- Endings ----

  /** Work past its expiry, or whose source is gone, is ended where it stands; the latter needs a clock after its creation. */
  lemma EndingsDecide(job: Job, now: Instant)
    requires job.Valid() && job.Active()
    ensures SkipExpired(job, now) == if now >= job.origin.expiresAt then Some(Ended(job, Skipped, StaleTrigger, now)) else None
    ensures job.origin.sourcePost.Some? ==>
              Invalidate(job, job.lease, now) ==
                if now < job.origin.createdAt then None
                else if now < job.origin.expiresAt then Some(Ended(job, Cancelled, SourceRemoved, now))
                else Some(Ended(job, Skipped, StaleTrigger, now))
  {
    hide ValidOrigin;
  }

  /** A repost that was withdrawn leaves its job without a source. */
  predicate LostRepost(o: Origin) {
    o.kind == RepostTrigger && o.sourceRepost.None?
  }

  lemma SocialHasPost(job: Job)
    requires job.Valid() && LostRepost(job.origin)
    ensures job.origin.sourcePost.Some?
  {
  }

  // ---- Leases ----

  /** Waiting and available, or abandoned by a worker whose lease ran out. */
  predicate Claimable(job: Job, now: Instant) {
    && now < job.origin.expiresAt && job.availableAt <= now
    && (job.status == Pending || job.status == RetryWait
        || (job.status == Running && job.leaseExpiresAt.Some? && job.leaseExpiresAt.value <= now))
  }

  /** The row a claim selects can be claimed, and none that can is available earlier, or as early with a smaller id. */
  lemma SelectionIsEarliest(jobs: seq<Job>, row: nat, now: Instant)
    ensures Store.IsNext(jobs, row, now) <==>
              && row < |jobs| && Claimable(jobs[row], now)
              && forall i :: 0 <= i < |jobs| && Claimable(jobs[i], now) ==>
                   jobs[i].availableAt > jobs[row].availableAt
                   || (jobs[i].availableAt == jobs[row].availableAt && jobs[i].origin.uuid >= jobs[row].origin.uuid)
  {
    forall job: Job ensures Due(job, now) <==> Claimable(job, now) {
    }
    hide Due, Claimable;
  }

  /** A claim takes exactly the rows that wait or were abandoned, under the next lease for 90 seconds; one that expired or lost its
      repost meanwhile is ended instead, and a clock that went back, or the last lease there is, refuses it. */
  lemma ClaimDecides(db: Db, row: nat, now: Instant, later: Instant)
    requires row < |db.jobs| && db.jobs[row].Valid()
    ensures var job := db.jobs[row];
            var taken := job.(status := Running, lease := job.lease + 1, leaseExpiresAt := Some(later + 90_000_000), reason := NoCode);
            Claim(db, row, now, later) ==
              if !Claimable(job, now) then Commit(db, None)
              else if later >= job.origin.expiresAt then Commit(db.WithJob(row, Ended(job, Skipped, StaleTrigger, later)), None)
              else if LostRepost(job.origin) then
                if later < job.origin.createdAt then Abort else Commit(db.WithJob(row, Ended(job, Cancelled, SourceRemoved, later)), None)
              else if job.lease >= 0x7fff_ffff_ffff_ffff || !Claimable(job, later) then Abort
              else Commit(db.WithJob(row, taken), Some(taken))
  {
    hide SkipExpired, Invalidate, ValidTransition, Job.Valid;
    var job := db.jobs[row];
    if Claimable(job, now) {
      EndingsDecide(job, later);
      if LostRepost(job.origin) {
        SocialHasPost(job);
      } else if later < job.origin.expiresAt && job.lease != 0x7fff_ffff_ffff_ffff {
        TakenValid(job, later);
      }
    }
  }

  lemma TakenValid(job: Job, later: Instant)
    requires job.Valid() && later < job.origin.expiresAt && !LostRepost(job.origin)
    requires job.status == Pending || job.status == RetryWait || job.status == Running
    ensures var taken := job.(status := Running, lease := job.lease + 1, leaseExpiresAt := Some(later + LEASE), reason := NoCode);
            job.lease != 0x7fff_ffff_ffff_ffff ==> (ValidTransition(job, taken, job.lease, later, None) <==> LeaseFits(job, later))
  {
    hide ValidOrigin;
  }

  predicate LeaseFits(job: Job, later: Instant) {
    && job.lease < 0x7fff_ffff_ffff_ffff && job.availableAt <= later
    && (job.status == Running ==> job.leaseExpiresAt.Some? && job.leaseExpiresAt.value <= later)
  }

  /** A renewal moves exactly the lease, to 90 seconds from now and never back; an outdated or lost job gets none. */
  lemma RenewDecides(db: Db, row: nat, version: int, now: Instant)
    requires row < |db.jobs| && db.jobs[row].Valid() && version > 0
    ensures var job := db.jobs[row];
            if !OpenAt(job, version, now) || LostRepost(job.origin) then Renew(db, row, version, now).Abort?
            else
              var expiry := Max(now + 90_000_000, job.leaseExpiresAt.value);
              Renew(db, row, version, now) == Commit(db.WithJob(row, job.(leaseExpiresAt := Some(expiry))), expiry)
  {
    hide ValidOrigin;
    OpenIsLeased(db.jobs[row], version, now);
    assert db.WithJob(row, db.jobs[row]) == db;
  }

  // ---- Completion ----

  /** Failures that may be tried again: transient ones, and calls whose worker was lost. */
  predicate MayRecur(a: Attempt) {
    a.status != Succeeded
    && (a.error == Transient || a.error == RateLimited || a.error == Timeout || a.error == InvalidOutput
        || (a.status == Unknown && a.error == LeaseLost))
  }

  /** When a further attempt would start: two seconds after the first, four after the second, jitter on top, and never before the
      provider's hint. */
  function RetryAt(attempts: seq<Attempt>, jitter: int, now: Instant): Instant
    requires attempts != []
  {
    var backed := now + (if |attempts| == 1 then 2_000_000 else 4_000_000) + jitter;
    match attempts[|attempts| - 1].notBefore
    case None => backed
    case Some(hint) => Max(backed, hint)
  }

  /** Three attempts at most, one regeneration at most, and a start before the job expires. */
  predicate RetryFits(job: Job, attempts: seq<Attempt>, jitter: int, now: Instant)
    requires attempts != []
  {
    && |attempts| <= 2 && (attempts[|attempts| - 1].error == InvalidOutput ==> InvalidOutputs(attempts) == 1)
    && RetryAt(attempts, jitter, now) < job.origin.expiresAt
  }

  /** The status and the row that the last outcome asks of a live job. */
  function Concluded(job: Job, attempts: seq<Attempt>, version: int, jitter: int, now: Instant): (JobStatus, Job)
    requires attempts != []
  {
    var last := attempts[|attempts| - 1];
    if last.decision == Some(Publish) && last.lease == version then (Running, job)
    else if MayRecur(last) && RetryFits(job, attempts, jitter, now) then
      (RetryWait, job.(status := RetryWait, reason := last.error, leaseExpiresAt := None, finishedAt := None,
                       availableAt := RetryAt(attempts, jitter, now)))
    else if last.decision == Some(Skip) then (Skipped, Ended(job, Skipped, last.skipReason, now))
    else if last.status == Succeeded then (JobFailed, Ended(job, JobFailed, OutcomeUnavailable, now))
    else if last.error == UnsafeOutput || last.error == RepeatedOutput then (Skipped, Ended(job, Skipped, last.error, now))
    else if last.error == ExecutionCancelled then (Cancelled, Ended(job, Cancelled, ExecutionCancelled, now))
    else if last.error in Settlements.FAILURES || MayRecur(last) then (JobFailed, Ended(job, JobFailed, last.error, now))
    else (JobFailed, Ended(job, JobFailed, OutcomeUnavailable, now))
  }

  /** In a reachable state, completion answers for the row's last, finished attempt under the current lease and for nothing else. A
      finished job answers its status again; a live one stays running exactly to publish or to use a retry already
      acknowledged, waits exactly when the failure may recur and a retry fits, and otherwise ends as the outcome says. */
  lemma CompletionDecides(w: World, row: nat, version: int, number: int, jitter: int, now: Instant)
    requires Inv(w) && row < |w.db.jobs| && now != 0
    ensures var job, attempts := w.db.jobs[row], w.db.attempts[row];
            Complete(w.db, row, version, number, jitter, now) ==
              if jitter < 0 || jitter > 1_000_000 || attempts == [] || job.lease != version || number != |attempts|
                 || attempts[|attempts| - 1].status == Reserved || attempts[|attempts| - 1].finishedAt.None? then Abort
              else if job.status != Running then Commit(w.db, job.status)
              else if now >= job.origin.expiresAt then Commit(w.db.WithJob(row, Ended(job, Skipped, StaleTrigger, now)), Skipped)
              else if LostRepost(job.origin) then
                if now < job.origin.createdAt then Abort else Commit(w.db.WithJob(row, Ended(job, Cancelled, SourceRemoved, now)), Cancelled)
              else if !OpenAt(job, version, now) || now < attempts[|attempts| - 1].finishedAt.value then Abort
              else if attempts[|attempts| - 1].lease < version && w.history.acknowledged[row] then Commit(w.db, Running)
              else Commit(w.db.WithJob(row, Concluded(job, attempts, version, jitter, now).1), Concluded(job, attempts, version, jitter, now).0)
  {
    hide SkipExpired, Invalidate, ValidTransition, Job.Valid, Judge, RowSound, Chains.Chained, Concluded, Attempt.Valid, Finish, OpenAt,
         Job.Leased;
    var job, attempts := w.db.jobs[row], w.db.attempts[row];
    RowFacts(w, row);
    if attempts != [] && job.lease == version && 0 <= jitter <= 1_000_000 {
      LastFenced(w, row);
      LastAttempt(w, row);
      if job.status == Running {
        EndingsDecide(job, now);
        OpenIsLeased(job, version, now);
        if LostRepost(job.origin) {
          SocialHasPost(job);
        } else if OpenAt(job, version, now) && attempts[|attempts| - 1].status != Reserved && now >= attempts[|attempts| - 1].finishedAt.value {
          Outcomes.HistoryTells(w, row, version);
          JudgeConcludes(w.db, row, version, jitter, now);
        }
      }
    }
  }

  lemma LastFenced(w: World, row: nat)
    requires Inv(w) && row < |w.db.jobs| && w.db.attempts[row] != []
    ensures var last := w.db.attempts[row][|w.db.attempts[row]| - 1];
            1 <= last.lease <= w.db.jobs[row].lease && w.db.jobs[row].status != Pending
  {
    hide Attempt.Valid, ValidOrigin, Sequenced, AvailabilityTells, Histories.Concluded, Accounted, Chains.Chained, Recorded;
    Retries.Sound(w, row);
  }

  lemma JudgeConcludes(db: Db, row: nat, version: int, jitter: int, now: Instant)
    requires db.Shaped() && row < |db.jobs| && db.attempts[row] != [] && |db.attempts[row]| <= 3
    requires var job, last := db.jobs[row], db.attempts[row][|db.attempts[row]| - 1];
             && job.Valid() && OpenAt(job, version, now) && version > 0 && !LostRepost(job.origin)
             && last.Valid() && last.status != Reserved && 0 <= jitter <= 1_000_000 && now != 0
    ensures var job, attempts := db.jobs[row], db.attempts[row];
            var c := Concluded(job, attempts, version, jitter, now);
            match Judge(job, attempts, version, now, jitter)
            case Stay => c == (Running, job)
            case End(status, reason, available) => status == c.0 && Finish(job, status, reason, now, available) == Some(c.1)
  {
    hide Attempt.Valid, Job.Valid, InvalidOutputs, Finish, OpenAt, NextRetry, RetryAt, Job.RepostGone, LostRepost, Job.Leased;
    var job, attempts := db.jobs[row], db.attempts[row];
    OpenIsLeased(job, version, now);
    NotLost(job);
    Endings(job, version, now);
    LastColumns(attempts[|attempts| - 1]);
    OpenBefore(job, version, now);
    InvalidCounts(attempts);
    RetryExactly(job, attempts, jitter, now);
    if RetryAt(attempts, jitter, now) < job.origin.expiresAt {
      Requeues(job, version, attempts[|attempts| - 1].error, now, RetryAt(attempts, jitter, now));
    }
  }

  lemma NotLost(job: Job)
    ensures job.RepostGone() <==> LostRepost(job.origin)
  {
  }

  lemma OpenBefore(job: Job, version: int, now: Instant)
    requires OpenAt(job, version, now)
    ensures now < job.origin.expiresAt
  {
  }

  lemma InvalidCounts(attempts: seq<Attempt>)
    requires attempts != []
    ensures attempts[|attempts| - 1].error == InvalidOutput ==> InvalidOutputs(attempts) >= 1
    ensures InvalidOutputs(attempts) <= |attempts|
  {
  }

  /** The columns that a verdict reads of a closed attempt. */
  lemma LastColumns(a: Attempt)
    requires a.Valid() && a.status != Reserved
    ensures a.decision.Some? ==> a.status == Succeeded
    ensures if a.status == Succeeded then a.error == NoCode else a.error != NoCode
    ensures a.decision == Some(Skip) ==> a.skipReason != NoCode
  {
  }

  lemma RetryExactly(job: Job, attempts: seq<Attempt>, jitter: int, now: Instant)
    requires attempts != [] && |attempts| <= 3 && now != 0 && 0 <= jitter <= 1_000_000
    requires InvalidOutputs(attempts) <= |attempts|
    ensures RetryAt(attempts, jitter, now) >= now
    ensures var last := attempts[|attempts| - 1];
            var failure := if last.status == Unknown && last.error == LeaseLost then Timeout else last.error;
            last.status != Succeeded && (last.error == InvalidOutput ==> InvalidOutputs(attempts) >= 1) ==>
              NextRetry(now, job.origin.expiresAt, |attempts|, InvalidOutputs(attempts), failure, last.notBefore, jitter)
              == if MayRecur(last) && RetryFits(job, attempts, jitter, now) then Some(RetryAt(attempts, jitter, now)) else None
  {
    hide InvalidOutputs;
  }

  /** Requeueing a live job is never refused, given a start that fits. */
  lemma Requeues(job: Job, version: int, reason: Code, now: Instant, available: Instant)
    requires job.Valid() && OpenAt(job, version, now) && version > 0 && !LostRepost(job.origin)
    requires now <= available < job.origin.expiresAt
    ensures reason != NoCode ==>
              Finish(job, RetryWait, reason, now, available) ==
              Some(job.(status := RetryWait, reason := reason, leaseExpiresAt := None, finishedAt := None, availableAt := available))
  {
    hide ValidOrigin;
  }

  // ---- Denial ----

  /** The six denials a worker may acknowledge, and what each makes of its job. */
  const DENIALS: map<Code, JobStatus> := map[
    ContextRejected := Skipped, PublicationDenied := Skipped, PolicyDenied := Skipped,
    SourceRemoved := Cancelled, ExecutionCancelled := Cancelled, OutcomeUnavailable := JobFailed]

  /** What a finished job says to a denial: its status again if it ended that way, or went stale or lost its source. */
  predicate Acknowledges(job: Job, denial: Code) {
    || (denial in DENIALS && job.status == DENIALS[denial] && job.reason == denial)
    || (job.status == Skipped && job.reason == StaleTrigger)
    || (job.status == Cancelled && job.reason == SourceRemoved)
  }

  /** Under the current lease one of six denials ends a live job with its own status and reason, and nothing else does; a finished
      job only answers again. */
  lemma DenialDecides(db: Db, row: nat, version: int, denial: Code, now: Instant)
    requires row < |db.jobs| && db.jobs[row].Valid()
    ensures var job := db.jobs[row];
            Deny(db, row, version, denial, now) ==
              if denial !in DENIALS || version < 1 || job.lease != version then Abort
              else if job.status != Running then (if Acknowledges(job, denial) then Commit(db, job.status) else Abort)
              else if now >= job.origin.expiresAt then Commit(db.WithJob(row, Ended(job, Skipped, StaleTrigger, now)), Skipped)
              else if LostRepost(job.origin) then
                if now < job.origin.createdAt then Abort else Commit(db.WithJob(row, Ended(job, Cancelled, SourceRemoved, now)), Cancelled)
              else if !OpenAt(job, version, now) then Abort
              else Commit(db.WithJob(row, Ended(job, DENIALS[denial], denial, now)), DENIALS[denial])
  {
    hide SkipExpired, Invalidate, ValidTransition, Job.Valid, OpenAt, Job.Leased, TerminalStatus, Finish;
    var job := db.jobs[row];
    DenialStatus(denial);
    if version >= 1 && job.lease == version && job.status == Running {
      EndingsDecide(job, now);
      OpenIsLeased(job, version, now);
      NotLost(job);
      if LostRepost(job.origin) {
        SocialHasPost(job);
      } else if OpenAt(job, version, now) {
        Endings(job, version, now);
      } else {
        NotFinished(job, version, now);
      }
    }
  }

  lemma DenialStatus(denial: Code)
    ensures TerminalStatus(denial) == if denial in DENIALS then Some(DENIALS[denial]) else None
    ensures denial in DENIALS ==> denial != NoCode && (DENIALS[denial] == Skipped || DENIALS[denial] == Cancelled || DENIALS[denial] == JobFailed)
  {
  }

  lemma NotFinished(job: Job, version: int, now: Instant)
    requires !job.Leased(version, now) && job.lease == version
    ensures forall status, reason, available :: Finish(job, status, reason, now, available).None?
  {
    hide ValidTransition, Job.Leased;
  }

  // ---- Operator retry ----

  /** Failures an operator may retry: everything but unsafe, repeated and cancelled output. */
  const RETRYABLE: set<Code> := {
    Transient, RateLimited, Timeout, InvalidOutput, Credentials, Configuration, AccountingUnsupported, Permanent}

  /** A failed job with attempts to spare, all of them closed and accounted for, and a reason that another attempt may cure. */
  predicate Curable(job: Job, attempts: seq<Attempt>) {
    && job.status == JobFailed && |attempts| <= 2 && InvalidOutputs(attempts) <= 1
    && (forall k :: 0 <= k < |attempts| ==> attempts[k].status != Reserved && attempts[k].error != AccountingUnsupported)
    && if attempts != [] && attempts[|attempts| - 1].status == Succeeded then
         job.reason == OutcomeUnavailable && attempts[|attempts| - 1].decision != Some(Skip)
       else job.reason in RETRYABLE
  }

  /** Now, or the provider's hint, or just after the last attempt, whichever is latest. */
  function ReopenAt(attempts: seq<Attempt>, now: Instant): Instant {
    if attempts == [] then now
    else
      var last := attempts[|attempts| - 1];
      Max(Max(now, if last.notBefore.Some? then last.notBefore.value else now),
          if last.finishedAt.Some? then last.finishedAt.value + 1 else now)
  }

  /** An operator reopens exactly the failed jobs whose history is curable and which their source, their agent and every quota let
      run, when the reopened job still starts before it expires; its identity, lease and history stay. */
  lemma RetryDecides(w: World, row: nat, now: Instant)
    requires Inv(w) && row < |w.db.jobs|
    ensures var job, attempts := w.db.jobs[row], w.db.attempts[row];
            var available := ReopenAt(attempts, now);
            var reopened := job.(status := RetryWait, reason := OperatorRetry, availableAt := available, finishedAt := None);
            Retry(w.db, row, now) ==
              if MayRun(w.db, job, now) && Curable(job, attempts) && available < job.origin.expiresAt && job.lease > 0
                 && job.finishedAt.Some? && job.finishedAt.value <= now
              then Commit(w.db.WithJob(row, reopened), reopened) else Abort
  {
    hide Job.Valid, StandingOf, PolicyAllows, RowSound, Chains.Chained, MayRun, HasSource, Ready, Reopenable, Reopened, ValidTransition, Curable,
         ReopenAt;
    var job, attempts := w.db.jobs[row], w.db.attempts[row];
    RowFacts(w, row);
    JobOrigin(job);
    StandingExactly(w.db, job.origin);
    CurableExactly(job, attempts);
    if HasSource(w.db, job.origin) && Ready(w.db, job.origin.agent) {
      PolicyExactly(w.db, job, now);
      ReopenExactly(attempts, now);
      if MayRun(w.db, job, now) {
        MayRunUnexpired(w.db, job, now);
        if Curable(job, attempts) {
          ReopenedValid(w, row, now);
        }
      }
    } else if MayRun(w.db, job, now) {
      RunsReady(w.db, job, now);
    }
  }

  lemma CurableExactly(job: Job, attempts: seq<Attempt>)
    ensures Reopenable(job, attempts) <==> Curable(job, attempts)
  {
    hide InvalidOutputs;
  }

  lemma ReopenExactly(attempts: seq<Attempt>, now: Instant)
    ensures Reopened(attempts, now) == ReopenAt(attempts, now) >= now
  {
  }

  lemma MayRunUnexpired(db: Db, job: Job, now: Instant)
    requires MayRun(db, job, now)
    ensures job.Valid() && now < job.origin.expiresAt && now >= job.origin.createdAt && now != 0
    ensures !job.RepostGone()
  {
    hide Recheck.Responds, Recheck.SpacedBehind, Recheck.DayRank, Ready, Policy.Valid;
  }

  lemma ReopenedValid(w: World, row: nat, now: Instant)
    requires Inv(w) && row < |w.db.jobs| && Curable(w.db.jobs[row], w.db.attempts[row])
    requires var job := w.db.jobs[row];
             job.Valid() && job.origin.createdAt <= now < job.origin.expiresAt && !job.RepostGone()
    requires ReopenAt(w.db.attempts[row], now) >= now
    ensures var job := w.db.jobs[row];
            var available := ReopenAt(w.db.attempts[row], now);
            var after := job.(status := RetryWait, reason := OperatorRetry, availableAt := available, finishedAt := None, leaseExpiresAt := None);
            && after == job.(status := RetryWait, reason := OperatorRetry, availableAt := available, finishedAt := None)
            && (available < job.origin.expiresAt ==>
                  (ValidTransition(job, after, job.lease, now, None)
                   <==> job.lease > 0 && job.finishedAt.Some? && job.finishedAt.value <= now))
  {
    hide ValidOrigin, RowSound, Chains.Chained, ReopenAt, Attempt.Valid, InvalidOutputs;
  }
}
