/** What each step can change, row by row: every committed update is a lawful one, and every
    event has one of seven shapes. */
module Effects {
  import opened Basics
  import opened Policies
  import opened Attempts
  import opened Jobs
  import opened Eligibility
  import opened Tables
  import opened Transactions
  import opened Operations
  import opened Protocol

  /** One committed job update: nothing, a contract transition under the observed fence, a source
      invalidation, or the loss of a repost reference followed by at most an invalidation. */
  ghost predicate Lawful(before: Job, after: Job, now: Instant, attempt: Option<Attempt>, lost: Option<Id>) {
    var seen := if lost.Some? then Detach(before, lost.value) else before;
    || after == seen
    || ValidTransition(seen, after, seen.lease, now, attempt)
    || ValidSourceInvalidation(seen, after, seen.lease, now)
  }

  /** An update that neither requeues nor publishes. */
  ghost predicate JobStep(before: Job, after: Job) {
    && SameRank(after.origin, before.origin)
    && (after.origin == before.origin || after.origin.sourceRepost.None?)
    && (before.Valid() ==> after.Valid())
    && before.lease <= after.lease && after.availableAt == before.availableAt
    && (before.status == JobSucceeded || after.status == JobSucceeded ==> after == before.(origin := after.origin))
  }

  /** Settings rows stay, and pause revisions never fall. */
  ghost predicate SettingsGrow(before: map<Id, Settings>, after: map<Id, Settings>) {
    forall id :: id in before ==>
      id in after && after[id].agent == before[id].agent && before[id].pauseRevision <= after[id].pauseRevision
  }

  /** Posts and replies stay with their authorship and content, and removal is final. */
  ghost predicate SourcesGrow(before: Db, after: Db) {
    && (forall id :: id in before.posts ==>
          id in after.posts && after.posts[id] == before.posts[id].(deleted := after.posts[id].deleted)
          && (before.posts[id].deleted ==> after.posts[id].deleted))
    && (forall id :: id in before.replies ==>
          id in after.replies && after.replies[id] == before.replies[id].(deleted := after.replies[id].deleted)
          && (before.replies[id].deleted ==> after.replies[id].deleted))
  }

  ghost predicate Around(before: Db, after: Db) {
    SettingsGrow(before.settings, after.settings) && SourcesGrow(before, after)
  }

  /** No attempt changes, no history, and every job makes at most a plain step. */
  ghost predicate Quiet(before: Db, after: Db) {
    && after.attempts == before.attempts && |after.jobs| == |before.jobs|
    && (forall i :: 0 <= i < |before.jobs| ==> JobStep(before.jobs[i], after.jobs[i]))
    && Around(before, after)
  }

  lemma QuietRefl(db: Db)
    ensures Quiet(db, db)
  {
  }

  lemma QuietChain(a: Db, b: Db, c: Db)
    requires Quiet(a, b) && Quiet(b, c)
    ensures Quiet(a, c)
  {
    hide Job.Valid;
    forall i | 0 <= i < |a.jobs| ensures JobStep(a.jobs[i], c.jobs[i]) {
      assert JobStep(a.jobs[i], b.jobs[i]) && JobStep(b.jobs[i], c.jobs[i]);
    }
  }

  /** Lawful updates that keep the availability and do not publish are plain steps. */
  lemma LawfulIsStep(before: Job, after: Job, now: Instant, attempt: Option<Attempt>)
    requires ValidTransition(before, after, before.lease, now, attempt) || ValidSourceInvalidation(before, after, before.lease, now)
    requires after.status != RetryWait && after.status != JobSucceeded
    ensures JobStep(before, after)
  {
    hide ValidOrigin;
  }

  lemma PutQuiet(db: Db, row: nat, after: Job, now: Instant)
    requires row < |db.jobs|
    requires ValidTransition(db.jobs[row], after, db.jobs[row].lease, now, None)
             || ValidSourceInvalidation(db.jobs[row], after, db.jobs[row].lease, now)
    requires after.status != RetryWait && after.status != JobSucceeded
    ensures Quiet(db, db.WithJob(row, after))
  {
    LawfulIsStep(db.jobs[row], after, now, None);
    hide Job.Valid, ValidTransition, ValidSourceInvalidation;
  }

  lemma ClaimQuiet(db: Db, row: nat, now: Instant, later: Instant)
    ensures Quiet(db, Kept(db, Claim(db, row, now, later)))
  {
    hide Job.Valid, ValidTransition, ValidSourceInvalidation, Quiet;
    QuietRefl(db);
    if row < |db.jobs| && ClaimJob(db.jobs[row], later).Some? {
      PutQuiet(db, row, ClaimJob(db.jobs[row], later).value, later);
    }
  }

  lemma RenewQuiet(db: Db, row: nat, version: int, now: Instant)
    ensures Quiet(db, Kept(db, Renew(db, row, version, now)))
  {
    hide Job.Valid, ValidTransition, ValidSourceInvalidation, Quiet;
    QuietRefl(db);
    if row < |db.jobs| {
      var after := db.jobs[row].(leaseExpiresAt := Some(now + LEASE));
      if db.jobs[row].Leased(version, now) && ValidTransition(db.jobs[row], after, version, now, None) {
        PutQuiet(db, row, after, now);
      }
    }
  }

  /** Ending a row by expiry or invalidation is quiet. */
  lemma EndQuiet(db: Db, row: nat, now: Instant)
    requires row < |db.jobs|
    ensures var r := SkipExpired(db.jobs[row], now); r.Some? ==> Quiet(db, db.WithJob(row, r.value))
    ensures var r := Invalidate(db.jobs[row], db.jobs[row].lease, now); r.Some? ==> Quiet(db, db.WithJob(row, r.value))
  {
    hide Job.Valid, ValidTransition, ValidSourceInvalidation, Quiet;
    var s := SkipExpired(db.jobs[row], now);
    if s.Some? {
      PutQuiet(db, row, s.value, now);
    }
    var v := Invalidate(db.jobs[row], db.jobs[row].lease, now);
    if v.Some? {
      PutQuiet(db, row, v.value, now);
    }
  }

  lemma FinishQuiet(db: Db, row: nat, status: JobStatus, reason: Code, now: Instant, available: Instant)
    requires row < |db.jobs| && status != RetryWait
    ensures var r := Finish(db.jobs[row], status, reason, now, available); r.Some? ==> Quiet(db, db.WithJob(row, r.value))
  {
    hide Job.Valid, ValidTransition, ValidSourceInvalidation, Quiet;
    var r := Finish(db.jobs[row], status, reason, now, available);
    if r.Some? {
      PutQuiet(db, row, r.value, now);
    }
  }

  lemma DenyQuiet(db: Db, row: nat, version: int, denial: Code, now: Instant)
    ensures Quiet(db, Kept(db, Deny(db, row, version, denial, now)))
  {
    hide SkipExpired, Invalidate, Finish, Quiet;
    QuietRefl(db);
    if row < |db.jobs| {
      EndQuiet(db, row, now);
      if TerminalStatus(denial).Some? {
        FinishQuiet(db, row, TerminalStatus(denial).value, denial, now, now);
      }
    }
  }

  lemma {:induction false} ExpireQuiet(db: Db, rows: seq<nat>, cutoff: Instant, now: Instant)
    ensures Quiet(db, Kept(db, Expire(db, rows, cutoff, now)))
    decreases rows
  {
    hide SkipExpired, Quiet;
    QuietRefl(db);
    if rows != [] && Expire(db, rows[..|rows| - 1], cutoff, now).Commit? {
      ExpireQuiet(db, rows[..|rows| - 1], cutoff, now);
      var done := Expire(db, rows[..|rows| - 1], cutoff, now).db;
      var row := rows[|rows| - 1];
      if row < |done.jobs| && SkipExpired(done.jobs[row], now).Some? {
        EndQuiet(done, row, now);
        QuietChain(db, done, done.WithJob(row, SkipExpired(done.jobs[row], now).value));
      }
    }
  }

  lemma {:induction false} CancelQuiet(db: Db, post: Id, rows: seq<nat>, now: Instant)
    ensures Quiet(db, Kept(db, CancelRemoved(db, post, rows, now)))
    decreases rows
  {
    hide Invalidate, Quiet, SourceGone;
    QuietRefl(db);
    if rows != [] && CancelRemoved(db, post, rows[..|rows| - 1], now).Commit? {
      CancelQuiet(db, post, rows[..|rows| - 1], now);
      var done := CancelRemoved(db, post, rows[..|rows| - 1], now).db;
      var row := rows[|rows| - 1];
      if row < |done.jobs| && Invalidate(done.jobs[row], done.jobs[row].lease, now).Some? {
        EndQuiet(done, row, now);
        QuietChain(db, done, done.WithJob(row, Invalidate(done.jobs[row], done.jobs[row].lease, now).value));
      }
    }
  }

  lemma RemovePostQuiet(db: Db, post: Id, rows: seq<nat>, now: Instant)
    ensures Quiet(db, Kept(db, RemovePost(db, post, rows, now)))
  {
    hide CancelRemoved, Job.Valid;
    if post in db.posts && !db.posts[post].deleted {
      var marked := db.(posts := db.posts[post := db.posts[post].(deleted := true)]);
      assert Quiet(db, marked);
      CancelQuiet(marked, post, rows, now);
      QuietChain(db, marked, Kept(marked, CancelRemoved(marked, post, rows, now)));
    }
  }

  lemma RemoveReplyQuiet(db: Db, reply: Id, rows: seq<nat>, now: Instant)
    ensures Quiet(db, Kept(db, RemoveReply(db, reply, rows, now)))
  {
    hide CancelRemoved, Job.Valid;
    if reply in db.replies && !db.replies[reply].deleted {
      var marked := db.(replies := db.replies[reply := db.replies[reply].(deleted := true)]);
      var parent := db.replies[reply].post;
      assert Quiet(db, marked);
      CancelQuiet(marked, parent, rows, now);
      QuietChain(db, marked, Kept(marked, CancelRemoved(marked, parent, rows, now)));
    }
  }

  /** Losing a repost reference keeps a job valid. */
  lemma DetachStep(job: Job, repost: Id)
    ensures JobStep(job, Detach(job, repost))
  {
  }

  lemma ClearedQuiet(db: Db, repost: Id)
    ensures Quiet(db, Cleared(db, repost))
  {
    hide JobStep, Detach;
    forall i | 0 <= i < |db.jobs| ensures JobStep(db.jobs[i], Detach(db.jobs[i], repost)) {
      DetachStep(db.jobs[i], repost);
    }
  }

  lemma RemoveRepostQuiet(db: Db, repost: Id, post: Id, rows: seq<nat>, now: Instant)
    ensures Quiet(db, Kept(db, RemoveRepost(db, repost, post, rows, now)))
  {
    hide CancelRemoved, Cleared, Quiet;
    QuietRefl(db);
    ClearedQuiet(db, repost);
    var cleared := Unreposted(db, repost, post);
    CancelQuiet(cleared, post, rows, now);
    QuietChain(db, cleared, Kept(cleared, CancelRemoved(cleared, post, rows, now)));
  }

  lemma StepRefl(job: Job)
    ensures JobStep(job, job)
  {
  }

  lemma TouchQuiet(db: Db, id: Id, changed: Settings)
    requires id in db.settings && changed.agent == db.settings[id].agent && db.settings[id].pauseRevision <= changed.pauseRevision
    ensures Quiet(db, db.(settings := db.settings[id := changed]))
  {
    hide JobStep;
    forall i | 0 <= i < |db.jobs| ensures JobStep(db.jobs[i], db.jobs[i]) {
      StepRefl(db.jobs[i]);
    }
  }

  lemma {:induction false} EnableQuiet(db: Db, agents: seq<Id>, single: bool, enabled: bool, now: Instant)
    ensures Quiet(db, Kept(db, Enable(db, agents, single, enabled, now)))
    decreases agents
  {
    hide Settings.Valid, Quiet;
    QuietRefl(db);
    if agents != [] && Enable(db, agents[..|agents| - 1], single, enabled, now).Commit? {
      EnableQuiet(db, agents[..|agents| - 1], single, enabled, now);
      var done := Enable(db, agents[..|agents| - 1], single, enabled, now).db;
      var id := agents[|agents| - 1];
      if id in done.settings {
        var s := done.settings[id];
        var changed := s.(enabled := enabled, pauseRevision := if enabled then s.pauseRevision else s.pauseRevision + 1, updatedAt := now);
        TouchQuiet(done, id, changed);
        QuietChain(db, done, done.(settings := done.settings[id := changed]));
      }
    }
  }

  lemma SetPolicyQuiet(db: Db, agent: Id, policy: Policy, now: Instant)
    ensures Quiet(db, Kept(db, SetPolicy(db, agent, policy, now)))
  {
    hide Settings.Valid, Job.Valid, Policy.Valid;
  }

  // ---- Reservations ----

  /** What a committed reservation proved of its row, its agent and the day's charges. */
  ghost predicate ReservationFacts(db: Db, row: nat, attempt: Attempt)
    requires db.Shaped() && row < |db.jobs|
  {
    var job, attempts := db.jobs[row], db.attempts[row];
    && attempt.Valid() && attempt.status == Reserved && attempt.reserved == RESERVED_TOKENS
    && attempt.job == row && attempt.number == |attempts| + 1 && |attempts| < MAX_ATTEMPTS
    && job.Leased(attempt.lease, attempt.startedAt)
    && (forall k :: 0 <= k < |attempts| ==> attempts[k].lease != attempt.lease)
    && InvalidOutputs(attempts) <= MAX_REGENERATIONS
    && (attempts != [] ==>
          attempts[|attempts| - 1].finishedAt.Some? && job.availableAt > attempts[|attempts| - 1].finishedAt.value)
    && SourceValid(db, job.origin)
    && job.origin.agent in db.settings && db.settings[job.origin.agent].Valid()
    && attempt.pauseRevision == Some(db.settings[job.origin.agent].pauseRevision)
    && Charge(db, attempt.budgetDay, None) <= DAILY_TOKENS - RESERVED_TOKENS
    && Charge(db, attempt.budgetDay, Some(job.origin.agent)) <= db.settings[job.origin.agent].policy.dailyTokens - RESERVED_TOKENS
  }

  lemma SpendEffect(db: Db, row: nat, version: int, s: Settings, prompt: nat, at: Readings)
    requires db.Shaped() && row < |db.jobs| && StandingOf(db, db.jobs[row].origin) == Granted(s)
    requires forall k :: 0 <= k < |db.attempts[row]| ==> db.attempts[row][k].lease != version
    requires InvalidOutputs(db.attempts[row]) <= MAX_REGENERATIONS && |db.attempts[row]| < MAX_ATTEMPTS
    requires db.attempts[row] != [] ==>
               var last := db.attempts[row][|db.attempts[row]| - 1];
               last.finishedAt.Some? && db.jobs[row].availableAt > last.finishedAt.value
    ensures var r := Spend(db, row, version, s, prompt, at);
            match r
            case Abort => true
            case Commit(after, Admitted(None, _)) => Quiet(db, after)
            case Commit(after, Admitted(Some(attempt), _)) =>
              ReservationFacts(db, row, attempt) && after == WithReservation(db, row, attempt)
  {
    hide SkipExpired, Finish, Quiet, PolicyAllows, TimeAllowed, SourceCreated, StandingOf, Charge, Attempt.Valid, Job.Leased, NewAttempt,
         ReservationFacts, InvalidOutputs;
    var r := Spend(db, row, version, s, prompt, at);
    if r.Commit? && r.result.attempt.Some? {
      SpendReserves(db, row, version, s, prompt, at);
    }
    EndQuiet(db, row, at.counted);
    EndQuiet(db, row, at.final);
    FinishQuiet(db, row, Skipped, PolicyDenied, at.final, at.final);
    FinishQuiet(db, row, Skipped, BudgetExhausted, at.final, at.final);
  }

  lemma SpendReserves(db: Db, row: nat, version: int, s: Settings, prompt: nat, at: Readings)
    requires db.Shaped() && row < |db.jobs| && StandingOf(db, db.jobs[row].origin) == Granted(s)
    requires forall k :: 0 <= k < |db.attempts[row]| ==> db.attempts[row][k].lease != version
    requires InvalidOutputs(db.attempts[row]) <= MAX_REGENERATIONS && |db.attempts[row]| < MAX_ATTEMPTS
    requires db.attempts[row] != [] ==>
               var last := db.attempts[row][|db.attempts[row]| - 1];
               last.finishedAt.Some? && db.jobs[row].availableAt > last.finishedAt.value
    requires var r := Spend(db, row, version, s, prompt, at); r.Commit? && r.result.attempt.Some?
    ensures var r := Spend(db, row, version, s, prompt, at);
            ReservationFacts(db, row, r.result.attempt.value) && r.db == WithReservation(db, row, r.result.attempt.value)
  {
    hide SkipExpired, Finish, PolicyAllows, TimeAllowed, SourceCreated, SourceValid, Settings.Valid, ChargeUpTo;
  }

  lemma RetainEffect(db: Db, row: nat, version: int, s: Settings, prompt: nat, at: Readings)
    requires db.Shaped() && row < |db.jobs| && StandingOf(db, db.jobs[row].origin) == Granted(s)
    ensures var r := Retain(db, row, version, s, prompt, at);
            match r
            case Abort => true
            case Commit(after, Admitted(None, _)) => Quiet(db, after)
            case Commit(after, Admitted(Some(attempt), _)) =>
              ReservationFacts(db, row, attempt) && after == WithReservation(db, row, attempt)
  {
    hide Finish, Quiet, Spend, ReservationFacts, InvalidOutputs, StandingOf;
    QuietRefl(db);
    FinishQuiet(db, row, JobFailed, InvalidOutput, at.now, at.now);
    FinishQuiet(db, row, JobFailed, AttemptLimit, at.now, at.now);
    var attempts := db.attempts[row];
    if (forall k :: 0 <= k < |attempts| ==> attempts[k].lease != version)
       && InvalidOutputs(attempts) <= MAX_REGENERATIONS && |attempts| < MAX_ATTEMPTS
       && (attempts != [] ==>
             var last := attempts[|attempts| - 1];
             last.finishedAt.Some? && db.jobs[row].availableAt > last.finishedAt.value) {
      SpendEffect(db, row, version, s, prompt, at);
    }
  }

  /** A reservation is either the one described by its facts, or at most an ending of its own row. */
  lemma ReserveEffect(db: Db, row: nat, version: int, prompt: Option<nat>, at: Readings)
    requires db.Shaped()
    ensures var r := Reserve(db, row, version, prompt, at);
            match r
            case Abort => true
            case Commit(after, Admitted(None, _)) => Quiet(db, after)
            case Commit(after, Admitted(Some(attempt), _)) =>
              row < |db.jobs| && ReservationFacts(db, row, attempt) && after == WithReservation(db, row, attempt)
  {
    hide SkipExpired, Finish, Quiet, PolicyAllows, StandingOf, Retain, ReservationFacts;
    if row < |db.jobs| {
      EndQuiet(db, row, at.now);
      FinishQuiet(db, row, Skipped, PolicyDenied, at.now, at.now);
      match StandingOf(db, db.jobs[row].origin)
      case Denied(reason) => FinishQuiet(db, row, Cancelled, reason, at.now, at.now);
      case Granted(s) =>
        if prompt.Some? {
          RetainEffect(db, row, version, s, prompt.value, at);
        }
    }
  }

  // ---- Requeues ----

  /** What a committed retry proved: a lawful requeue strictly after the last finished attempt and not before its hint. */
  ghost predicate RequeueFacts(db: Db, row: nat, after: Job)
    requires db.Shaped() && row < |db.jobs|
  {
    var job, attempts := db.jobs[row], db.attempts[row];
    && after.status == RetryWait && after.origin == job.origin && after.Valid()
    && after.lease == job.lease && job.status != JobSucceeded
    && (attempts != [] ==>
          var last := attempts[|attempts| - 1];
          && last.Finished() && after.availableAt > last.finishedAt.value
          && (last.notBefore.Some? ==> after.availableAt >= last.notBefore.value))
  }

  lemma CompleteEffect(db: Db, row: nat, version: int, number: int, jitter: int, now: Instant)
    requires db.Shaped()
    ensures var r := Complete(db, row, version, number, jitter, now);
            match r
            case Abort => true
            case Commit(after, status) =>
              row < |db.jobs| &&
              if db.jobs[row].status == Running && status == RetryWait then
                db.attempts[row] != [] && RequeueFacts(db, row, after.jobs[row]) && after == db.WithJob(row, after.jobs[row])
              else Quiet(db, after)
  {
    hide SkipExpired, Invalidate, Finish, Judge, Quiet, Job.Valid, RequeueFacts, ValidTransition, Job.Leased;
    QuietRefl(db);
    if row < |db.jobs| && db.attempts[row] != [] && db.jobs[row].lease == version {
      EndQuiet(db, row, now);
      match Judge(db.jobs[row], db.attempts[row], version, now, jitter)
      case Stay =>
      case End(status, reason, available) =>
        if status != RetryWait {
          FinishQuiet(db, row, status, reason, now, available);
        } else if db.jobs[row].status == Running && db.attempts[row][|db.attempts[row]| - 1].Finished()
                  && db.attempts[row][|db.attempts[row]| - 1].finishedAt.value <= now {
          RequeueEffect(db, row, version, jitter, now);
        }
    }
  }

  /** A verdict to wait, applied to a running row, is a requeue. */
  lemma RequeueEffect(db: Db, row: nat, version: int, jitter: int, now: Instant)
    requires db.Shaped() && row < |db.jobs| && db.attempts[row] != [] && db.jobs[row].status == Running
    requires var last := db.attempts[row][|db.attempts[row]| - 1]; last.Finished() && last.finishedAt.value <= now
    requires Judge(db.jobs[row], db.attempts[row], version, now, jitter).End?
    requires Judge(db.jobs[row], db.attempts[row], version, now, jitter).status == RetryWait
    ensures var v := Judge(db.jobs[row], db.attempts[row], version, now, jitter);
            var r := Finish(db.jobs[row], v.status, v.reason, now, v.available);
            r.Some? ==> RequeueFacts(db, row, r.value)
  {
    hide Job.Valid, InvalidOutputs, Job.Leased;
  }

  lemma RetryEffect(db: Db, row: nat, now: Instant)
    requires db.Shaped()
    requires row < |db.attempts| ==> forall k :: 0 <= k < |db.attempts[row]| ==> db.attempts[row][k].Valid()
    ensures var r := Retry(db, row, now);
            r.Commit? ==>
              row < |db.jobs| && RequeueFacts(db, row, r.db.jobs[row]) && r.db == db.WithJob(row, r.db.jobs[row])
  {
    hide Job.Valid, StandingOf, PolicyAllows, InvalidOutputs;
  }

  // ---- Observations ----

  /** One outcome written over one reservation; usage is only ever what the call reported. */
  ghost predicate Observation(db: Db, after: Db, row: nat, number: int, input: Option<int>, output: Option<int>)
    requires db.Shaped()
  {
    && row < |db.jobs| && 1 <= number <= |db.attempts[row]|
    && row < |after.attempts| && number <= |after.attempts[row]|
    && var attempt := after.attempts[row][number - 1];
    && ValidAttemptTransition(db.attempts[row][number - 1], attempt)
    && after == db.WithAttempt(row, number - 1, attempt)
    && (attempt.input.Some? ==>
          attempt.input == input && attempt.output == output && attempt.input.value >= 1
          && attempt.input.value <= MAX_INPUT_TOKENS && 0 <= attempt.output.value <= MAX_OUTPUT_TOKENS
          && attempt.error != AccountingUnsupported)
  }

  lemma SettleEffect(db: Db, reservation: Attempt, outcome: Outcome, requestId: Option<nat>, now: Instant)
    requires db.Shaped()
    ensures var r := Settle(db, reservation, outcome, requestId, now);
            r.Commit? ==>
              || r.db == db
              || Observation(db, r.db, reservation.job, reservation.number, outcome.input, outcome.output)
  {
    hide ValidAttemptTransition;
  }

  lemma RecoverEffect(db: Db, row: nat, number: int, now: Instant)
    requires db.Shaped()
    ensures var r := RecoverOne(db, row, number, now);
            r.Commit? ==> r.db == db || Observation(db, r.db, row, number, None, None)
  {
  }
}
