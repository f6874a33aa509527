/** The store itself: the tables as fields that each transaction updates in place, rolling back when it fails. */
module Store {
  import opened Basics
  import opened Policies
  import opened Attempts
  import opened Jobs
  import opened Eligibility
  import opened Admission
  import opened Tables
  import opened Transactions
  import opened Operations
  import Schedule

  /** A call that did what the transaction says: an error leaves the tables as they were. */
  ghost predicate Does<R>(before: Db, tx: Tx<R>, after: Db, r: Option<R>) {
    match tx
    case Abort => r.None? && after == before
    case Commit(db, result) => r == Some(result) && after == db
  }

  /** What a caller gets from a reservation: one more attempt under its own lease and nothing else, or no attempt and at most
      its own job ended. */
  ghost predicate Reserves(jobs: seq<Job>, attempts: seq<seq<Attempt>>, row: nat, version: int, at: Instant,
                           jobsAfter: seq<Job>, attemptsAfter: seq<seq<Attempt>>, r: Option<Admitted>) {
    r.Some? ==>
      && row < |jobs| && row < |attempts| && row < |jobsAfter|
      && match r.value.attempt
         case Some(a) =>
           && jobsAfter == jobs && attemptsAfter == attempts[row := attempts[row] + [a]]
           && a.status == Reserved && a.job == row && a.number == |attempts[row]| + 1 && a.lease == version && a.startedAt == at
         case None =>
           && attemptsAfter == attempts && jobsAfter == jobs[row := jobsAfter[row]]
           && (jobsAfter == jobs || jobsAfter[row].Terminal())
  }

  /** What a caller gets from completing or denying: the status the row now has, under the lease it already had, every other
      row being left alone, as is this one once it has stopped running. */
  ghost predicate Answers(jobs: seq<Job>, row: nat, version: int, after: seq<Job>, status: JobStatus) {
    && row < |jobs| && row < |after| && after == jobs[row := after[row]]
    && after[row].status == status && after[row].lease == version && after[row].origin == jobs[row].origin
    && (jobs[row].status != Running || status == Running ==> after == jobs)
  }

  ghost predicate SameOrigins(before: seq<Job>, after: seq<Job>) {
    |after| == |before| && forall i :: 0 <= i < |before| ==> after[i].origin == before[i].origin
  }

  /** The first due row by availability and id. */
  ghost predicate IsNext(jobs: seq<Job>, row: nat, now: Instant) {
    && row < |jobs| && Due(jobs[row], now)
    && forall i :: 0 <= i < |jobs| && Due(jobs[i], now) ==> !Sooner(jobs[i], jobs[row])
  }

  predicate Sooner(a: Job, b: Job) {
    a.availableAt < b.availableAt || (a.availableAt == b.availableAt && a.origin.uuid < b.origin.uuid)
  }

  /** The selection of a claim. */
  method NextDue(jobs: seq<Job>, now: Instant) returns (next: Option<nat>)
    ensures next.Some? ==> IsNext(jobs, next.value, now)
    ensures next.None? ==> forall i :: 0 <= i < |jobs| ==> !Due(jobs[i], now)
  {
    next := None;
    for i := 0 to |jobs|
      invariant next.Some? ==> next.value < i && IsNext(jobs[..i], next.value, now)
      invariant next.None? ==> forall k :: 0 <= k < i ==> !Due(jobs[k], now)
    {
      if Due(jobs[i], now) && (next.None? || Sooner(jobs[i], jobs[next.value])) {
        next := Some(i);
      }
    }
    assert jobs[..|jobs|] == jobs;
  }

  method CountInvalid(attempts: seq<Attempt>) returns (invalid: nat)
    ensures invalid == InvalidOutputs(attempts)
  {
    invalid := 0;
    for i := 0 to |attempts|
      invariant invalid == InvalidOutputs(attempts[..i])
    {
      assert attempts[..i + 1][..i] == attempts[..i];
      if attempts[i].error == InvalidOutput {
        invalid := invalid + 1;
      }
    }
    assert attempts[..|attempts|] == attempts;
  }

  method UsesLease(attempts: seq<Attempt>, version: int) returns (used: bool)
    ensures used <==> exists k :: 0 <= k < |attempts| && attempts[k].lease == version
  {
    for i := 0 to |attempts|
      invariant forall k :: 0 <= k < i ==> attempts[k].lease != version
    {
      if attempts[i].lease == version {
        return true;
      }
    }
    used := false;
  }

  /** Uncertain calls lose their counts, counts over the local targets their result, and only verified counts stay. */
  method NormaliseUsage(outcome: Outcome) returns (normal: Outcome)
    requires ValidOutcome(outcome)
    ensures normal == Normalise(outcome)
  {
    var input, output := outcome.input, outcome.output;
    normal := outcome.(input := None, output := None);
    if Uncertain(outcome.failure) {
      input, output := None, None;
    }
    if input.Some? && output.Some? {
      if input.value > MAX_INPUT_TOKENS || output.value > MAX_OUTPUT_TOKENS {
        normal := normal.(result := None, failure := AccountingUnsupported);
      } else if input.value >= 1 && output.value >= 0 {
        normal := normal.(input := input, output := output);
      }
    } else if (input.Some? && input.value > MAX_INPUT_TOKENS) || (output.Some? && output.value > MAX_OUTPUT_TOKENS) {
      normal := normal.(result := None, failure := AccountingUnsupported);
    }
  }

  lemma ReservationNumber(reservation: Attempt)
    ensures reservation.Valid() ==> reservation.number >= 1
  {
  }

  /** What the latest durable outcome asks of its job. */
  method JudgeOutcome(job: Job, history: seq<Attempt>, version: int, now: Instant, jitter: int) returns (verdict: Verdict)
    requires history != []
    ensures verdict == Judge(job, history, version, now, jitter)
  {
    hide InvalidOutputs, NextRetry, Code.IsFailureCode;
    var attempt := history[|history| - 1];
    var status, reason, available := JobFailed, attempt.error, now;
    if attempt.status == Succeeded {
      match attempt.decision {
        case Some(Skip) => status, reason := Skipped, attempt.skipReason;
        case Some(Publish) =>
          if attempt.lease == version {
            return Stay;
          }
          reason := OutcomeUnavailable;
        case None => reason := OutcomeUnavailable;
      }
    } else {
      var failure := attempt.error;
      if attempt.status == Unknown && attempt.error == LeaseLost {
        failure := Timeout;
      }
      if !failure.IsFailureCode() {
        reason := OutcomeUnavailable;
      } else {
        var invalid := CountInvalid(history);
        var next := NextRetry(now, job.origin.expiresAt, |history|, invalid, failure, attempt.notBefore, jitter);
        if next.Some? {
          status, available := RetryWait, next.value;
        } else if failure == ExecutionCancelled {
          status := Cancelled;
        } else if failure == UnsafeOutput || failure == RepeatedOutput {
          status := Skipped;
        }
      }
    }
    verdict := End(status, reason, available);
  }

  /** The agents a step concerns, with their locked settings; unusable ones are dropped. */
  method Discover(db: Db, picks: seq<Pick>, actor: Id) returns (candidates: seq<Candidate>)
    ensures candidates == CandidatesOf(db, picks, actor)
  {
    hide Settings.Valid;
    candidates := [];
    for i := 0 to |picks|
      invariant candidates == CandidatesOf(db, picks[..i], actor)
    {
      assert picks[..i + 1][..i] == picks[..i];
      var pick := picks[i];
      if pick.agent != actor && pick.agent in db.accounts && db.accounts[pick.agent].agent && !db.accounts[pick.agent].disabled
         && pick.agent in db.settings && db.settings[pick.agent].enabled && db.settings[pick.agent].Valid()
         && db.settings[pick.agent].agent == pick.agent {
        candidates := candidates + [Candidate(db.settings[pick.agent], pick.uuid, pick.sample, pick.delay)];
      }
    }
    assert picks[..|picks|] == picks;
  }

  class Store {
    var jobs: seq<Job>
    var attempts: seq<seq<Attempt>>
    var settings: map<Id, Settings>
    var accounts: map<Id, Account>
    var posts: map<Id, Post>
    var replies: map<Id, Reply>
    var reposts: map<Id, Repost>

    function Contents(): Db
      reads this
    {
      Db(jobs, attempts, settings, accounts, posts, replies, reposts)
    }

    predicate Valid()
      reads this
    {
      |jobs| == |attempts|
    }

    constructor (settings: map<Id, Settings>, accounts: map<Id, Account>)
      ensures Valid() && Contents() == Db([], [], settings, accounts, map[], map[], map[])
    {
      this.settings, this.accounts := settings, accounts;
      jobs, attempts, posts, replies, reposts := [], [], map[], map[], map[];
    }

    /** Undo everything since the transaction began. */
    method Rollback(saved: Db)
      modifies this
      ensures Contents() == saved
    {
      jobs, attempts, settings, accounts := saved.jobs, saved.attempts, saved.settings, saved.accounts;
      posts, replies, reposts := saved.posts, saved.replies, saved.reposts;
    }

    // ---- Job rows ----

    method PutJob<R>(row: nat, after: Option<Job>, result: R) returns (r: Option<R>)
      requires Valid() && row < |jobs|
      modifies this`jobs
      ensures Valid() && |jobs| == old(|jobs|)
      ensures Does(old(Contents()), Put(old(Contents()), row, after, result), Contents(), r)
      ensures r.Some? ==> r == Some(result) && after.Some? && jobs == old(jobs)[row := after.value]
    {
      if after.None? {
        return None;
      }
      jobs := jobs[row := after.value];
      r := Some(result);
    }

    /** Take the next due job, or end it; the row examined is the first one due, if any is. */
    method ClaimNext(now: Instant, later: Instant) returns (examined: Option<nat>, r: Option<Option<Job>>)
      requires Valid()
      modifies this`jobs
      ensures Valid()
      ensures examined.None? ==>
                Contents() == old(Contents()) && r == Some(None) && forall i :: 0 <= i < |jobs| ==> !Due(jobs[i], now)
      ensures examined.Some? ==>
                IsNext(old(jobs), examined.value, now)
                && Does(old(Contents()), Claim(old(Contents()), examined.value, now, later), Contents(), r)
      ensures r.Some? && r.value.Some? ==>
                && examined.Some? && jobs[examined.value] == r.value.value
                && r.value.value.status == Running && r.value.value.lease == old(jobs)[examined.value].lease + 1
    {
      hide ValidTransition, ValidSourceInvalidation, Due, Sooner;
      examined := NextDue(jobs, now);
      if examined.None? {
        return None, Some(None);
      }
      var row := examined.value;
      var before := jobs[row];
      if later >= before.origin.expiresAt {
        r := PutJob(row, SkipExpired(before, later), None);
      } else if before.RepostGone() {
        r := PutJob(row, Invalidate(before, before.lease, later), None);
      } else if before.lease == 0x7fff_ffff_ffff_ffff {
        r := None;
      } else {
        var after := before.(status := Running, lease := before.lease + 1, leaseExpiresAt := Some(later + LEASE), reason := NoCode);
        if !ValidTransition(before, after, before.lease, later, None) {
          return examined, None;
        }
        jobs := jobs[row := after];
        r := Some(Some(after));
      }
    }

    method RenewLease(row: nat, version: int, now: Instant) returns (r: Option<Instant>)
      requires Valid()
      modifies this`jobs
      ensures Valid()
      ensures Does(old(Contents()), Renew(old(Contents()), row, version, now), Contents(), r)
      ensures r.Some? ==>
                && row < |jobs| && jobs[row].Leased(version, now) && jobs[row].leaseExpiresAt == r && r.value >= now + LEASE
                && jobs == old(jobs)[row := old(jobs)[row].(leaseExpiresAt := r)]
    {
      hide ValidTransition;
      if row >= |jobs| {
        return None;
      }
      var job := jobs[row];
      if !job.Leased(version, now) || job.RepostGone() {
        return None;
      }
      var expiry := now + LEASE;
      if expiry <= job.leaseExpiresAt.value {
        return Some(job.leaseExpiresAt.value);
      }
      var after := job.(leaseExpiresAt := Some(expiry));
      if !ValidTransition(job, after, version, now, None) {
        return None;
      }
      jobs := jobs[row := after];
      r := Some(expiry);
    }

    // ---- Reservation ----

    /** The two sums of one day's accounting: of every agent, and of one. */
    method Spent(day: int, agent: Id) returns (global: int, own: int)
      requires Valid()
      ensures global == Charge(Contents(), day, None) && own == Charge(Contents(), day, Some(agent))
    {
      hide Attempt.Cost;
      global, own := 0, 0;
      for i := 0 to |jobs|
        invariant global == ChargeUpTo(jobs, attempts, i, day, None)
        invariant own == ChargeUpTo(jobs, attempts, i, day, Some(agent))
      {
        var cost := 0;
        for k := 0 to |attempts[i]|
          invariant cost == JobCharge(attempts[i][..k], day)
        {
          assert attempts[i][..k + 1][..k] == attempts[i][..k];
          if attempts[i][k].budgetDay == day {
            cost := cost + attempts[i][k].Cost();
          }
        }
        assert attempts[i][..|attempts[i]|] == attempts[i];
        global := global + cost;
        if jobs[i].origin.agent == agent {
          own := own + cost;
        }
      }
    }

    method Refused(row: nat, after: Option<Job>, reason: Code) returns (r: Option<Admitted>)
      requires Valid() && row < |jobs|
      modifies this`jobs
      ensures Valid()
      ensures Does(old(Contents()), Refuse(old(Contents()), row, after, reason), Contents(), r)
      ensures r.Some? ==> r == Some(Admitted(None, reason)) && after.Some? && jobs == old(jobs)[row := after.value]
    {
      r := PutJob(row, after, Admitted(None, reason));
    }

    method ReserveCall(row: nat, version: int, prompt: Option<nat>, at: Readings) returns (r: Option<Admitted>)
      requires Valid()
      modifies this`jobs, this`attempts
      ensures Valid()
      ensures Does(old(Contents()), Reserve(old(Contents()), row, version, prompt, at), Contents(), r)
      ensures Reserves(old(jobs), old(attempts), row, version, at.final, jobs, attempts, r)
    {
      hide SkipExpired, Finish, PolicyAllows, StandingOf, Retain, Job.Leased, Put;
      if row >= |jobs| {
        return None;
      }
      var job := jobs[row];
      if job.status != Running || job.lease != version {
        return None;
      }
      if at.now >= job.origin.expiresAt {
        Skips(job, at.now);
        r := Refused(row, SkipExpired(job, at.now), StaleTrigger);
        return;
      }
      if !job.Leased(version, at.now) {
        return None;
      }
      match StandingOf(Contents(), job.origin) {
        case Denied(reason) =>
          Finishes(job, Cancelled, reason, at.now, at.now);
          r := Refused(row, Finish(job, Cancelled, reason, at.now, at.now), reason);
        case Granted(s) =>
          if !PolicyAllows(Contents(), job, s, at.now) {
            Finishes(job, Skipped, PolicyDenied, at.now, at.now);
            r := Refused(row, Finish(job, Skipped, PolicyDenied, at.now, at.now), PolicyDenied);
          } else if prompt.None? {
            r := None;
          } else {
            r := RetainAttempt(row, version, s, prompt.value, at);
          }
      }
    }

    method RetainAttempt(row: nat, version: int, s: Settings, prompt: nat, at: Readings) returns (r: Option<Admitted>)
      requires Valid() && row < |jobs|
      modifies this`jobs, this`attempts
      ensures Valid()
      ensures Does(old(Contents()), Retain(old(Contents()), row, version, s, prompt, at), Contents(), r)
      ensures Reserves(old(jobs), old(attempts), row, version, at.final, jobs, attempts, r)
    {
      hide Finish, Spend, InvalidOutputs, Put;
      var history, job := attempts[row], jobs[row];
      var used := UsesLease(history, version);
      if used {
        return Some(Admitted(None, AlreadyAdmitted));
      }
      var invalid := CountInvalid(history);
      if invalid > MAX_REGENERATIONS {
        Finishes(job, JobFailed, InvalidOutput, at.now, at.now);
        r := Refused(row, Finish(job, JobFailed, InvalidOutput, at.now, at.now), InvalidOutput);
        return;
      }
      if |history| >= MAX_ATTEMPTS {
        Finishes(job, JobFailed, AttemptLimit, at.now, at.now);
        r := Refused(row, Finish(job, JobFailed, AttemptLimit, at.now, at.now), AttemptLimit);
        return;
      }
      if |history| > 0 {
        var last := history[|history| - 1];
        if last.finishedAt.None? || job.availableAt <= last.finishedAt.value {
          return Some(Admitted(None, RecoveryRequired));
        }
      }
      r := SpendTokens(row, version, s, prompt, at);
    }

    method SpendTokens(row: nat, version: int, s: Settings, prompt: nat, at: Readings) returns (r: Option<Admitted>)
      requires Valid() && row < |jobs|
      modifies this`jobs, this`attempts
      ensures Valid()
      ensures Does(old(Contents()), Spend(old(Contents()), row, version, s, prompt, at), Contents(), r)
      ensures Reserves(old(jobs), old(attempts), row, version, at.final, jobs, attempts, r)
    {
      hide SkipExpired, Finish, PolicyAllows, TimeAllowed, ChargeUpTo, Job.Leased, Attempt.Valid, Put;
      var job, day := jobs[row], DateOf(at.now);
      var global, own := Spent(day, job.origin.agent);
      if at.counted >= job.origin.expiresAt {
        Skips(job, at.counted);
        r := Refused(row, SkipExpired(job, at.counted), StaleTrigger);
        return;
      }
      if !job.Leased(version, at.counted) || DateOf(at.counted) != day {
        return None;
      }
      var allowed := PolicyAllows(Contents(), job, s, at.counted);
      if at.final >= job.origin.expiresAt {
        Skips(job, at.final);
        r := Refused(row, SkipExpired(job, at.final), StaleTrigger);
        return;
      }
      if at.final < at.counted || !job.Leased(version, at.final) || DateOf(at.final) != day {
        return None;
      }
      if !allowed || !TimeAllowed(job.origin, s.policy, SourceCreated(Contents(), job.origin), at.final) {
        Finishes(job, Skipped, PolicyDenied, at.final, at.final);
        r := Refused(row, Finish(job, Skipped, PolicyDenied, at.final, at.final), PolicyDenied);
        return;
      }
      if global > DAILY_TOKENS - RESERVED_TOKENS || own > s.policy.dailyTokens - RESERVED_TOKENS {
        Finishes(job, Skipped, BudgetExhausted, at.final, at.final);
        r := Refused(row, Finish(job, Skipped, BudgetExhausted, at.final, at.final), BudgetExhausted);
        return;
      }
      var attempt := Attempt(row, |attempts[row]| + 1, version, Some(s.pauseRevision), prompt, None, None, NoCode, None,
                             day, RESERVED_TOKENS, None, None, Reserved, NoCode, None, at.final, None);
      if !attempt.Valid() {
        return None;
      }
      attempts := attempts[row := attempts[row] + [attempt]];
      r := Some(Admitted(Some(attempt), NoCode));
    }

    // ---- Observations ----

    method SettleCall(reservation: Attempt, outcome: Outcome, requestId: Option<nat>, now: Instant) returns (accepted: Option<bool>)
      requires Valid()
      modifies this`attempts
      ensures Valid()
      ensures Does(old(Contents()), Settle(old(Contents()), reservation, outcome, requestId, now), Contents(), accepted)
      ensures accepted == Some(true) ==>
                && reservation.job < |attempts| && 1 <= reservation.number <= |attempts[reservation.job]|
                && var after := attempts[reservation.job][reservation.number - 1];
                && after.status != Reserved && after.Reservation() == reservation.Reservation()
                && attempts == old(attempts)[reservation.job := old(attempts)[reservation.job][reservation.number - 1 := after]]
      ensures accepted != Some(true) ==> attempts == old(attempts)
    {
      hide ValidAttemptTransition, Attempt.Valid, ValidOutcome, Normalise;
      ReservationNumber(reservation);
      if !reservation.Valid() || reservation.status != Reserved || !ValidOutcome(outcome) {
        return None;
      }
      var row, number := reservation.job, reservation.number;
      var normal := NormaliseUsage(outcome);
      if row >= |jobs| || number > |attempts[row]| {
        return None;
      }
      var before := attempts[row][number - 1];
      if before.Reservation() != reservation.Reservation() {
        return None;
      }
      if normal.result.Some? && normal.result.value.kind != jobs[row].origin.output {
        return None;
      }
      var after := reservation.(status := Failed, finishedAt := Some(now), requestId := requestId, error := normal.failure,
                                input := normal.input, output := normal.output, notBefore := normal.notBefore);
      if normal.result.Some? {
        after := after.(status := Succeeded, digest := normal.result, decision := Some(normal.result.value.decision),
                        skipReason := normal.result.value.reason);
      }
      if normal.failure == Timeout || normal.failure == ExecutionCancelled {
        after := after.(status := Unknown);
      }
      if before.status != Reserved {
        assert attempts[row] == attempts[row][number - 1 := before];
        return Some(SameObservation(before, after));
      }
      if !ValidAttemptTransition(before, after) {
        return None;
      }
      attempts := attempts[row := attempts[row][number - 1 := after]];
      accepted := Some(true);
    }

    method Recover(ids: seq<(nat, int)>, clocks: seq<Instant>) returns (r: Option<nat>)
      requires Valid() && |ids| == |clocks|
      modifies this
      ensures Valid()
      ensures Does(old(Contents()), RecoverAll(old(Contents()), ids, clocks), Contents(), r)
    {
      hide ValidAttemptTransition, Abandoned;
      var saved, count := Contents(), 0;
      for i := 0 to |ids|
        invariant Valid() && saved == old(Contents())
        invariant RecoverAll(saved, ids[..i], clocks[..i]) == Commit(Contents(), count)
      {
        assert ids[..i + 1][..i] == ids[..i] && clocks[..i + 1][..i] == clocks[..i];
        var row, number, now := ids[i].0, ids[i].1, clocks[i];
        if row < |jobs| && 1 <= number <= |attempts[row]| && Abandoned(jobs[row], attempts[row][number - 1], now) {
          var before := attempts[row][number - 1];
          var after := before.(status := Unknown, error := LeaseLost, finishedAt := Some(now));
          if !ValidAttemptTransition(before, after) {
            RecoverAborts(saved, ids, clocks, i + 1);
            Rollback(saved);
            return None;
          }
          attempts := attempts[row := attempts[row][number - 1 := after]];
          count := count + 1;
        }
      }
      assert ids[..|ids|] == ids && clocks[..|ids|] == clocks;
      r := Some(count);
    }

    // ---- Completion, denial and retry ----

    method CompleteJob(row: nat, version: int, number: int, jitter: int, now: Instant) returns (r: Option<JobStatus>)
      requires Valid()
      modifies this`jobs
      ensures Valid()
      ensures Does(old(Contents()), Complete(old(Contents()), row, version, number, jitter, now), Contents(), r)
      ensures r.Some? ==> Answers(old(jobs), row, version, jobs, r.value)
    {
      hide SkipExpired, Invalidate, Finish, Job.Leased, Judge;
      if jitter < 0 || jitter > MAX_JITTER || row >= |jobs| {
        return None;
      }
      var job, history := jobs[row], attempts[row];
      if |history| == 0 || |history| > MAX_ATTEMPTS || job.lease != version || version < 1 {
        return None;
      }
      var attempt := history[|history| - 1];
      if attempt.number != number || attempt.lease > version || !attempt.Finished() {
        return None;
      }
      if job.status != Running {
        return if job.status == Pending then None else Some(job.status);
      }
      if now >= job.origin.expiresAt {
        Skips(job, now);
        r := PutJob(row, SkipExpired(job, now), Skipped);
        return;
      }
      if job.RepostGone() {
        Invalidates(job, now);
        r := PutJob(row, Invalidate(job, version, now), Cancelled);
        return;
      }
      if !job.Leased(version, now) || now < attempt.finishedAt.value {
        return None;
      }
      if attempt.lease < version && job.availableAt > attempt.finishedAt.value {
        return Some(Running);
      }
      var verdict := JudgeOutcome(job, history, version, now, jitter);
      if verdict.Stay? {
        return Some(Running);
      }
      Finishes(job, verdict.status, verdict.reason, now, verdict.available);
      r := PutJob(row, Finish(job, verdict.status, verdict.reason, now, verdict.available), verdict.status);
    }

    method DenyJob(row: nat, version: int, denial: Code, now: Instant) returns (r: Option<JobStatus>)
      requires Valid()
      modifies this`jobs
      ensures Valid()
      ensures Does(old(Contents()), Deny(old(Contents()), row, version, denial, now), Contents(), r)
      ensures r.Some? ==> Answers(old(jobs), row, version, jobs, r.value) && r.value != RetryWait && r.value != Running
    {
      hide SkipExpired, Invalidate, Finish, ValidTransition, ValidSourceInvalidation, Job.Valid;
      var terminal := TerminalStatus(denial);
      if terminal.None? || row >= |jobs| {
        return None;
      }
      var job, status := jobs[row], terminal.value;
      if version < 1 || job.lease != version {
        return None;
      }
      if job.status != Running {
        if (job.status == status && job.reason == denial) || (job.status == Skipped && job.reason == StaleTrigger)
           || (job.status == Cancelled && job.reason == SourceRemoved) {
          return Some(job.status);
        }
        return None;
      }
      if now >= job.origin.expiresAt {
        Skips(job, now);
        r := PutJob(row, SkipExpired(job, now), Skipped);
      } else if job.RepostGone() {
        Invalidates(job, now);
        r := PutJob(row, Invalidate(job, version, now), Cancelled);
      } else {
        Finishes(job, status, denial, now, now);
        r := PutJob(row, Finish(job, status, denial, now, now), status);
      }
    }

    /** The retained history's verdict on reopening: unresolved or unsupported attempts and spent regenerations close it. */
    method MayReopen(job: Job, history: seq<Attempt>) returns (open: bool)
      ensures open <==> Reopenable(job, history)
      ensures open ==> job.status == JobFailed
    {
      hide InvalidOutputs, Code.IsFailureCode;
      if job.status != JobFailed || |history| >= MAX_ATTEMPTS {
        return false;
      }
      for i := 0 to |history|
        invariant forall k :: 0 <= k < i ==> history[k].status != Reserved && history[k].error != AccountingUnsupported
      {
        if history[i].status == Reserved || history[i].error == AccountingUnsupported {
          return false;
        }
      }
      var invalid := CountInvalid(history);
      if invalid > MAX_REGENERATIONS {
        return false;
      }
      if |history| > 0 && history[|history| - 1].status == Succeeded {
        return job.reason == OutcomeUnavailable && history[|history| - 1].decision != Some(Skip);
      }
      open := job.reason.IsFailureCode() && job.reason != UnsafeOutput && job.reason != RepeatedOutput && job.reason != ExecutionCancelled;
    }

    method RetryJob(row: nat, now: Instant) returns (r: Option<Job>)
      requires Valid()
      modifies this`jobs
      ensures Valid()
      ensures Does(old(Contents()), Retry(old(Contents()), row, now), Contents(), r)
      ensures r.Some? ==>
                && row < |jobs| && old(jobs)[row].status == JobFailed && jobs == old(jobs)[row := r.value]
                && r.value.status == RetryWait && r.value.lease == old(jobs)[row].lease && r.value.origin == old(jobs)[row].origin
                && now <= r.value.availableAt < r.value.origin.expiresAt
    {
      hide Reopenable, StandingOf, PolicyAllows, ValidTransition;
      if row >= |jobs| {
        return None;
      }
      var standing := StandingOf(Contents(), jobs[row].origin);
      if standing.Denied? {
        return None;
      }
      var job, history := jobs[row], attempts[row];
      var open := MayReopen(job, history);
      if !open || now >= job.origin.expiresAt || !PolicyAllows(Contents(), job, standing.settings, now) {
        return None;
      }
      var available := now;
      if |history| > 0 {
        var last := history[|history| - 1];
        if last.notBefore.Some? && last.notBefore.value > available {
          available := last.notBefore.value;
        }
        if last.finishedAt.Some? && available <= last.finishedAt.value {
          available := last.finishedAt.value + 1;
        }
      }
      if available >= job.origin.expiresAt {
        return None;
      }
      var after := job.(status := RetryWait, reason := OperatorRetry, availableAt := available, finishedAt := None, leaseExpiresAt := None);
      if !ValidTransition(job, after, job.lease, now, None) {
        return None;
      }
      jobs := jobs[row := after];
      r := Some(after);
    }

    // ---- Publication ----

    /** A finished publication is only ever read again. */
    method ReplayPublication(row: nat, version: int, number: int, output: Result) returns (r: Option<Job>)
      requires Valid() && row < |jobs|
      ensures Does(Contents(), Replay(Contents(), row, version, number, output), Contents(), r)
    {
      var job := jobs[row];
      if job.lease != version || job.published != Some(number) || !(1 <= number <= |attempts[row]|) {
        return None;
      }
      var attempt := attempts[row][number - 1];
      if attempt.job != job.origin.row || attempt.lease != version || attempt.status != Succeeded || attempt.decision != Some(Publish)
         || attempt.digest != Some(output) || output.decision != Publish || output.kind != job.origin.output {
        return None;
      }
      r := Some(job);
    }

    method InsertResult(job: Job, p: Printing) returns (ok: bool)
      modifies this`posts, this`replies
      ensures var stored := InsertContent(old(Contents()), job, p);
              ok == stored.Some? && Contents() == if ok then stored.value else old(Contents())
    {
      if job.origin.output == OutputReply {
        if p.resultId in replies || job.origin.sourcePost.None? {
          return false;
        }
        replies := replies[p.resultId := Reply(job.origin.sourcePost.value, job.origin.agent, false, p.now, p.output.content)];
      } else {
        if p.resultId in posts {
          return false;
        }
        var quoted := None;
        if job.origin.output == OutputQuote {
          quoted := job.origin.sourcePost;
        }
        posts := posts[p.resultId := Post(job.origin.agent, quoted, false, p.now, p.output.content)];
      }
      ok := true;
    }

    /** Content, job, settings and children; a failure leaves partial writes for the caller to roll back. */
    method WriteResult(row: nat, s: Settings, p: Printing) returns (ok: bool)
      requires Valid() && row < |jobs| && jobs[row].origin.root < |jobs|
      modifies this
      ensures var printed := Print(old(Contents()), row, s, p);
              ok == printed.Some? && (ok ==> Contents() == printed.value)
      ensures ok ==> row < |jobs| && jobs[row] == Printed(old(jobs)[row], p)
    {
      hide Admit, Printed, SharedCaps, SealedBy;
      ghost var before := Contents();
      var job := jobs[row];
      var candidates := Discover(Contents(), p.picks, job.origin.agent);
      var inserted := InsertResult(job, p);
      if !inserted {
        return false;
      }
      var after := Printed(job, p);
      jobs := jobs[row := after];
      settings := settings[job.origin.agent := s.(lastPublishedAt := Some(p.now), updatedAt := p.now)];
      var rows := AdmitSource(jobs, ChildSource(job, p), Child(after, jobs[job.origin.root]), candidates, p.admitted);
      if rows.None? {
        return false;
      }
      AdmitFacts(jobs, ChildSource(job, p), Child(after, jobs[job.origin.root]), candidates, p.admitted);
      assert rows.value[..|jobs|][row] == after;
      attempts := attempts + seq(|rows.value| - |jobs|, _ => []);
      jobs := rows.value;
      ok := true;
    }

    /** Publish a settled output once, with its children, or change nothing. */
    method PublishOnce(row: nat, version: int, p: Printing) returns (r: Option<Job>)
      requires Valid()
      modifies this
      ensures Valid()
      ensures Does(old(Contents()), PublishJob(old(Contents()), row, version, p), Contents(), r)
      ensures r.Some? ==>
                && row < |jobs| && jobs[row] == r.value && r.value.status == JobSucceeded && r.value.lease == version
                && r.value.published == Some(p.number) && old(jobs)[row].lease == version
                && (old(jobs)[row].status == JobSucceeded ==> Contents() == old(Contents()))
    {
      hide Replay, Print, Authorised, StillAuthorised, StandingOf, Printed;
      if row >= |jobs| {
        return None;
      }
      var job := jobs[row];
      if job.status == JobSucceeded {
        r := ReplayPublication(row, version, p.number, p.output);
        ReplayReads(Contents(), row, version, p.number, p.output);
        return;
      }
      if job.status != Running || job.lease != version || p.output.decision != Publish || p.output.kind != job.origin.output {
        return None;
      }
      var standing := StandingOf(Contents(), job.origin);
      if standing.Denied? || job.origin.root >= |jobs| || !(1 <= p.number <= |attempts[row]|) {
        return None;
      }
      var saved := Contents();
      if !Authorised(saved, row, version, standing.settings, p) {
        return None;
      }
      var written := WriteResult(row, standing.settings, p);
      if !written || !StillAuthorised(saved, row, version, standing.settings, p) {
        Rollback(saved);
        return None;
      }
      Prints(job, p);
      r := Some(jobs[row]);
    }

    // ---- Cleanup ----

    method ExpireJobs(rows: seq<nat>, cutoff: Instant, now: Instant) returns (r: Option<nat>)
      requires Valid()
      modifies this
      ensures Valid()
      ensures Does(old(Contents()), Expire(old(Contents()), rows, cutoff, now), Contents(), r)
    {
      hide SkipExpired, Expirable, Expire;
      var saved, expired := Contents(), 0;
      assert rows[..0] == [];
      NothingExpired(saved, cutoff, now);
      for i := 0 to |rows|
        invariant Valid() && saved == old(Contents())
        invariant Expire(saved, rows[..i], cutoff, now) == Commit(Contents(), expired)
      {
        ExpireNext(saved, rows, i, cutoff, now);
        var row := rows[i];
        if Expirable(Contents(), row, cutoff) && now >= jobs[row].origin.expiresAt {
          var after := SkipExpired(jobs[row], now);
          if after.None? {
            ExpireAborts(saved, rows, cutoff, now, i + 1);
            Rollback(saved);
            return None;
          }
          jobs := jobs[row := after.value];
          expired := expired + 1;
        }
      }
      assert rows[..|rows|] == rows;
      r := Some(expired);
    }

    method CancelSourceJobs(post: Id, rows: seq<nat>, now: Instant) returns (r: Option<nat>)
      requires Valid()
      modifies this`jobs
      ensures Valid()
      ensures var tx := CancelRemoved(old(Contents()), post, rows, now);
              if tx.Abort? then r.None? else r == Some(tx.result) && Contents() == tx.db
      ensures SameOrigins(old(jobs), jobs)
      ensures r.Some? ==> forall row :: row in rows ==> !Removable(Contents(), row, post)
    {
      hide Invalidate, Removable, CancelRemoved;
      ghost var saved := Contents();
      var cancelled := 0;
      assert rows[..0] == [];
      NothingCancelled(saved, post, now);
      for i := 0 to |rows|
        invariant Valid()
        invariant CancelRemoved(saved, post, rows[..i], now) == Commit(Contents(), cancelled)
        invariant SameOrigins(saved.jobs, jobs)
        invariant forall k :: 0 <= k < i ==> !Removable(Contents(), rows[k], post)
      {
        CancelNext(saved, post, rows, i, now);
        var row := rows[i];
        if Removable(Contents(), row, post) {
          var after := Invalidate(jobs[row], jobs[row].lease, now);
          if after.None? {
            CancelAborts(saved, post, rows, now, i + 1);
            return None;
          }
          InvalidateEnds(Contents(), row, post, now, rows[..i]);
          jobs := jobs[row := after.value];
          cancelled := cancelled + 1;
        }
      }
      assert rows[..|rows|] == rows;
      r := Some(cancelled);
    }

    method DeletePost(post: Id, rows: seq<nat>, now: Instant) returns (r: Option<nat>)
      requires Valid()
      modifies this
      ensures Valid()
      ensures Does(old(Contents()), RemovePost(old(Contents()), post, rows, now), Contents(), r)
      ensures r.Some? ==>
                && post in old(posts) && posts == old(posts)[post := old(posts)[post].(deleted := true)]
                && replies == old(replies) && reposts == old(reposts) && attempts == old(attempts) && SameOrigins(old(jobs), jobs)
                && forall row :: row in rows ==> !Removable(Contents(), row, post)
    {
      hide CancelRemoved;
      if post !in posts || posts[post].deleted {
        return None;
      }
      var saved := Contents();
      posts := posts[post := posts[post].(deleted := true)];
      r := CancelSourceJobs(post, rows, now);
      if r.None? {
        Rollback(saved);
      }
    }

    method DeleteReply(reply: Id, rows: seq<nat>, now: Instant) returns (r: Option<nat>)
      requires Valid()
      modifies this
      ensures Valid()
      ensures Does(old(Contents()), RemoveReply(old(Contents()), reply, rows, now), Contents(), r)
      ensures r.Some? ==>
                && reply in old(replies) && replies == old(replies)[reply := old(replies)[reply].(deleted := true)]
                && posts == old(posts) && reposts == old(reposts) && attempts == old(attempts) && SameOrigins(old(jobs), jobs)
                && forall row :: row in rows ==> !Removable(Contents(), row, replies[reply].post)
    {
      hide CancelRemoved;
      if reply !in replies || replies[reply].deleted {
        return None;
      }
      var parent := replies[reply].post;
      if parent !in posts || posts[parent].deleted {
        return None;
      }
      var saved := Contents();
      replies := replies[reply := replies[reply].(deleted := true)];
      r := CancelSourceJobs(parent, rows, now);
      if r.None? {
        Rollback(saved);
      }
    }

    /** The deleted row takes every reference to it along. */
    method ClearRepost(repost: Id)
      requires Valid()
      modifies this`jobs, this`reposts
      ensures Valid() && Contents() == Cleared(old(Contents()), repost)
    {
      var before := jobs;
      for i := 0 to |before|
        invariant |jobs| == |before| && reposts == old(reposts)
        invariant forall k :: 0 <= k < |before| ==> jobs[k] == if k < i then Detach(before[k], repost) else before[k]
      {
        if jobs[i].origin.sourceRepost == Some(repost) {
          jobs := jobs[i := jobs[i].(origin := jobs[i].origin.(sourceRepost := None))];
        }
      }
      reposts := reposts - {repost};
      assert jobs == Cleared(old(Contents()), repost).jobs;
    }

    method DeleteRepost(repost: Id, post: Id, rows: seq<nat>, now: Instant) returns (r: Option<nat>)
      requires Valid()
      modifies this
      ensures Valid()
      ensures Does(old(Contents()), RemoveRepost(old(Contents()), repost, post, rows, now), Contents(), r)
      ensures r.Some? ==>
                && !Reposted(Contents(), repost, post) && posts == old(posts) && replies == old(replies) && attempts == old(attempts)
                && (forall row :: row in rows ==> !Removable(Contents(), row, post))
                && (Reposted(old(Contents()), repost, post) ==>
                      forall i :: 0 <= i < |jobs| ==> jobs[i].origin.sourceRepost != Some(repost))
    {
      hide CancelRemoved, Cleared;
      if post !in posts || posts[post].deleted {
        return None;
      }
      var saved := Contents();
      if repost in reposts && reposts[repost].post == post {
        ClearedGone(saved, repost);
        ClearRepost(repost);
      }
      r := CancelSourceJobs(post, rows, now);
      if r.None? {
        Rollback(saved);
      }
    }

    // ---- Controls ----

    method SetAgentsEnabled(agents: seq<Id>, single: bool, enabled: bool, now: Instant) returns (r: Option<nat>)
      requires Valid()
      modifies this
      ensures Valid()
      ensures Does(old(Contents()), Enable(old(Contents()), agents, single, enabled, now), Contents(), r)
    {
      hide Settings.Valid, Enable, EnableOne;
      var saved, count := Contents(), 0;
      assert agents[..0] == [];
      NothingEnabled(saved, single, enabled, now);
      for i := 0 to |agents|
        invariant Valid() && saved == old(Contents())
        invariant Enable(saved, agents[..i], single, enabled, now) == Commit(Contents(), count)
      {
        EnableNext(saved, agents, i, single, enabled, now);
        var id := agents[i];
        OneEnabled(Contents(), id, single, enabled, now);
        if id !in accounts || !accounts[id].agent || id !in settings {
          EnableAborts(saved, agents, single, enabled, now, i + 1);
          Rollback(saved);
          return None;
        }
        var s := settings[id];
        if enabled && (accounts[id].disabled || !s.Valid() || !s.Ready()) {
          if single {
            EnableAborts(saved, agents, single, enabled, now, i + 1);
            Rollback(saved);
            return None;
          }
        } else {
          var revision := s.pauseRevision;
          if !enabled {
            revision := revision + 1;
          }
          settings := settings[id := s.(enabled := enabled, pauseRevision := revision, updatedAt := now)];
          count := count + 1;
        }
      }
      assert agents[..|agents|] == agents;
      r := Some(count);
    }

    method SetAgentPolicy(agent: Id, policy: Policy, now: Instant) returns (r: Option<()>)
      requires Valid()
      modifies this`settings
      ensures Valid()
      ensures Does(old(Contents()), SetPolicy(old(Contents()), agent, policy, now), Contents(), r)
      ensures r.Some? ==>
                && agent in settings && settings[agent].policy == policy && settings[agent].updatedAt == now
                && settings == old(settings)[agent := settings[agent]]
                && settings[agent].enabled == old(settings)[agent].enabled
                && settings[agent].pauseRevision == old(settings)[agent].pauseRevision
    {
      hide Policy.Valid, Schedule.ChangePolicy;
      if !policy.Valid() || agent !in accounts || !accounts[agent].agent || agent !in settings {
        return None;
      }
      var changed := Schedule.ChangePolicy(settings[agent], policy, now);
      if changed.None? {
        return None;
      }
      EditKeeps(settings[agent], policy, now);
      settings := settings[agent := changed.value];
      r := Some(());
    }

    // ---- Reservations ----

    method ScheduleOne(agent: Id, now: Instant, draw: Schedule.Draw, uuid: nat) returns (r: Option<Visit>)
      requires Valid()
      modifies this
      ensures Valid()
      ensures Does(old(Contents()), ScheduleAgent(old(Contents()), agent, now, draw, uuid), Contents(), r)
      ensures if r == Some(Enqueued) then
                agent in settings && Slotted(old(jobs), old(attempts), settings[agent].agent, now, jobs, attempts)
              else jobs == old(jobs) && attempts == old(attempts)
    {
      hide Settings.Valid, Schedule.Advance, Members, SlotDay, Taken, Job.Valid, SlotJob, Slotted;
      if agent !in accounts || agent !in settings {
        return None;
      }
      var s := settings[agent];
      if accounts[agent].disabled || !s.enabled {
        return Some(Ignored);
      }
      var saved := Contents();
      settings := settings[agent := s.(updatedAt := now)];
      if !accounts[agent].agent || !s.Valid() {
        return Some(Visit.Invalid);
      }
      var advanced := Schedule.AdvanceSchedule(s, now, draw);
      if advanced.None? {
        return Some(Visit.Invalid);
      }
      var next := advanced.value.settings;
      settings := settings[agent := settings[agent].(nextPostAt := next.nextPostAt, scheduleDate := next.scheduleDate, remaining := next.remaining)];
      assert Contents() == saved.(settings := saved.settings[agent := s.(updatedAt := now, nextPostAt := next.nextPostAt, scheduleDate := next.scheduleDate, remaining := next.remaining)]);
      if advanced.value.due.None? {
        return Some(Idle);
      }
      ValidZone(s);
      if |Members(jobs, SlotDay(s, now))| >= s.policy.postCap || Members(jobs, Recent(s.agent, now - s.policy.Spacing())) != {} {
        return Some(SlotDenied);
      }
      var job := SlotJob(|jobs|, uuid, s, advanced.value.due.value, now);
      if !job.Valid() {
        Rollback(saved);
        return None;
      }
      if Taken(jobs, s.agent, job.origin.key) {
        return Some(SlotDenied);
      }
      SlotAdded(jobs, attempts, uuid, s, advanced.value.due.value, now);
      jobs, attempts := jobs + [job], attempts + seq(1, _ => []);
      r := Some(Enqueued);
    }

    method InsertAction(kind: Trigger, action: Id, actor: Id, target: Option<Id>, content: Content, at: Instant) returns (ok: bool)
      modifies this`posts, this`replies, this`reposts
      ensures var written := WriteAction(old(Contents()), kind, action, actor, target, content, at);
              ok == written.Some? && Contents() == if ok then written.value else old(Contents())
      ensures ok ==> action in posts || action in replies || action in reposts
    {
      if target.Some? && (target.value !in posts || posts[target.value].deleted) {
        return false;
      }
      ok := false;
      match kind {
        case HumanPost =>
          if action !in posts && target.None? {
            posts, ok := posts[action := Post(actor, None, false, at, content)], true;
          }
        case QuoteTrigger =>
          if action !in posts && target.Some? {
            posts, ok := posts[action := Post(actor, target, false, at, content)], true;
          }
        case ReplyTrigger =>
          if action !in replies && target.Some? {
            replies, ok := replies[action := Reply(target.value, actor, false, at, content)], true;
          }
        case RepostTrigger =>
          if action !in reposts && target.Some? && !AlreadyReposted(Contents(), actor, target.value) {
            reposts, ok := reposts[action := Repost(target.value, actor, at)], true;
          }
        case _ =>
      }
    }

    /** Admit a source against the current tables, adding the rows it obtains. */
    method Enqueue(source: Source, line: Line, candidates: seq<Candidate>, now: Instant) returns (r: Option<()>)
      requires Valid()
      modifies this`jobs, this`attempts
      ensures Valid()
      ensures var rows := Admit(old(jobs), source, line, candidates, now);
              Does(old(Contents()), WithAdmitted(old(Contents()), rows), Contents(), r)
      ensures Extends(old(jobs), jobs)
      ensures jobs != old(jobs) ==> r.Some? && SharedCaps(old(jobs), jobs, source, line, candidates, now)
    {
      hide Admit, SharedCaps, SealedBy;
      var rows := AdmitSource(jobs, source, line, candidates, now);
      if rows.None? {
        return None;
      }
      AdmitFacts(jobs, source, line, candidates, now);
      attempts := attempts + seq(|rows.value| - |jobs|, _ => []);
      jobs := rows.value;
      r := Some(());
    }

    method HumanAction(kind: Trigger, action: Id, actor: Id, target: Option<Id>, content: Content, at: Instant,
                       picks: seq<Pick>, now: Instant) returns (r: Option<()>)
      requires Valid()
      modifies this
      ensures Valid()
      ensures Does(old(Contents()), Act(old(Contents()), kind, action, actor, target, content, at, picks, now), Contents(), r)
      ensures Extends(old(jobs), jobs) && settings == old(settings)
      ensures r.Some? ==> action in posts || action in replies || action in reposts
    {
      hide WriteAction, SocialSource, Admit;
      if actor !in accounts || accounts[actor].agent || accounts[actor].disabled {
        return None;
      }
      var saved := Contents();
      var ok := InsertAction(kind, action, actor, target, content, at);
      if !ok {
        return None;
      }
      WrittenKeepsRows(saved, kind, action, actor, target, content, at);
      var source := SocialSource(Contents(), kind, action);
      if source.None? || source.value.actor != actor {
        Rollback(saved);
        return None;
      }
      var candidates := Discover(Contents(), picks, actor);
      r := Enqueue(source.value, Direct, candidates, now);
      if r.None? {
        Rollback(saved);
      }
    }

    method EnqueueContinuations(row: nat, picks: seq<Pick>, now: Instant) returns (r: Option<()>)
      requires Valid()
      modifies this`jobs, this`attempts
      ensures Valid()
      ensures Does(old(Contents()), Continue(old(Contents()), row, picks, now), Contents(), r)
      ensures Extends(old(jobs), jobs)
      ensures jobs != old(jobs) ==> row < |old(jobs)| && old(jobs)[row].status == JobSucceeded
    {
      hide Proven, ResultSource, Admit;
      if row >= |jobs| || !Proven(Contents(), row) || jobs[row].origin.root >= |jobs| {
        return None;
      }
      ProvenParent(Contents(), row);
      var source := ResultSource(Contents(), jobs[row]);
      if source.None? {
        return None;
      }
      var candidates := [];
      if AccountLive(Contents(), source.value.actor) {
        candidates := Discover(Contents(), picks, source.value.actor);
      }
      r := Enqueue(source.value, Child(jobs[row], jobs[jobs[row].origin.root]), candidates, now);
    }
  }

  /** A batch that fails part-way has failed as a whole. */
  lemma {:induction false} RecoverAborts(db: Db, ids: seq<(nat, int)>, clocks: seq<Instant>, n: nat)
    requires db.Shaped() && |ids| == |clocks| && n <= |ids| && RecoverAll(db, ids[..n], clocks[..n]).Abort?
    ensures RecoverAll(db, ids, clocks).Abort?
    decreases |ids|
  {
    hide RecoverOne;
    if n == |ids| {
      assert ids[..n] == ids && clocks[..n] == clocks;
    } else {
      var m := |ids| - 1;
      assert ids[..m][..n] == ids[..n] && clocks[..m][..n] == clocks[..n];
      RecoverAborts(db, ids[..m], clocks[..m], n);
    }
  }

  lemma Skips(job: Job, now: Instant)
    ensures var r := SkipExpired(job, now);
            r.Some? ==> r.value.status == Skipped && r.value.lease == job.lease && r.value.origin == job.origin
  {
    hide ValidTransition;
  }

  lemma Invalidates(job: Job, now: Instant)
    ensures var r := Invalidate(job, job.lease, now);
            r.Some? ==> r.value.status == (if now < job.origin.expiresAt then Cancelled else Skipped)
                        && r.value.lease == job.lease && r.value.origin == job.origin
  {
    hide ValidSourceInvalidation;
  }

  lemma Finishes(job: Job, status: JobStatus, reason: Code, now: Instant, available: Instant)
    ensures var r := Finish(job, status, reason, now, available);
            r.Some? ==> r.value.status == status && r.value.lease == job.lease && r.value.origin == job.origin
                        && (status == RetryWait || r.value.Terminal())
  {
    hide ValidTransition;
  }

  lemma Prints(job: Job, p: Printing)
    ensures var r := Printed(job, p);
            r.status == JobSucceeded && r.lease == job.lease && r.published == Some(p.number) && r.origin == job.origin
  {
  }

  lemma ClearedGone(db: Db, repost: Id)
    ensures var r := Cleared(db, repost);
            && repost !in r.reposts && r.posts == db.posts && r.replies == db.replies && r.attempts == db.attempts
            && |r.jobs| == |db.jobs| && forall i :: 0 <= i < |r.jobs| ==> r.jobs[i].origin.sourceRepost != Some(repost)
  {
  }

  lemma ProvenParent(db: Db, row: nat)
    requires row < |db.jobs| && db.Shaped() && Proven(db, row)
    ensures db.jobs[row].status == JobSucceeded
  {
  }

  /** What a caller gets from a due slot: one waiting row for it, keyed by the slot and not there before. */
  ghost predicate Slotted(jobs: seq<Job>, attempts: seq<seq<Attempt>>, agent: Id, now: Instant,
                          jobsAfter: seq<Job>, attemptsAfter: seq<seq<Attempt>>) {
    && |jobsAfter| == |jobs| + 1 && jobsAfter[..|jobs|] == jobs && attemptsAfter == attempts + [[]]
    && var job := jobsAfter[|jobs|];
    && job.Valid() && job.status == Pending && job.origin.agent == agent && job.origin.kind == Scheduled
    && job.origin.createdAt == now && !Taken(jobs, job.origin.agent, job.origin.key)
  }

  lemma SlotAdded(jobs: seq<Job>, attempts: seq<seq<Attempt>>, uuid: nat, s: Settings, slot: Schedule.Slot, now: Instant)
    requires var job := SlotJob(|jobs|, uuid, s, slot, now); job.Valid() && !Taken(jobs, s.agent, job.origin.key)
    ensures Slotted(jobs, attempts, s.agent, now, jobs + [SlotJob(|jobs|, uuid, s, slot, now)], attempts + seq(1, _ => []))
  {
    hide Taken, Job.Valid;
  }

  /** An ended row is no longer removable, and ending it makes no other row removable. */
  lemma InvalidateEnds(db: Db, row: nat, post: Id, now: Instant, rows: seq<nat>)
    requires row < |db.jobs|
    ensures var after := Invalidate(db.jobs[row], db.jobs[row].lease, now);
            after.Some? ==>
              && after.value.origin == db.jobs[row].origin && !Removable(db.WithJob(row, after.value), row, post)
              && forall r :: r in rows && !Removable(db, r, post) ==> !Removable(db.WithJob(row, after.value), r, post)
  {
    hide ValidSourceInvalidation;
  }

  lemma NothingExpired(db: Db, cutoff: Instant, now: Instant)
    ensures Expire(db, [], cutoff, now) == Commit(db, 0)
  {
  }

  lemma ExpireNext(db: Db, rows: seq<nat>, i: nat, cutoff: Instant, now: Instant)
    requires i < |rows| && Expire(db, rows[..i], cutoff, now).Commit?
    ensures var tx := Expire(db, rows[..i], cutoff, now);
            Expirable(tx.db, rows[i], cutoff) ==> rows[i] < |tx.db.jobs|
    ensures var tx := Expire(db, rows[..i], cutoff, now);
            Expire(db, rows[..i + 1], cutoff, now)
            == if !Expirable(tx.db, rows[i], cutoff) || now < tx.db.jobs[rows[i]].origin.expiresAt then tx
               else Put(tx.db, rows[i], SkipExpired(tx.db.jobs[rows[i]], now), tx.result + 1)
  {
    hide SkipExpired;
    assert rows[..i + 1][..i] == rows[..i];
  }

  lemma NothingCancelled(db: Db, post: Id, now: Instant)
    ensures CancelRemoved(db, post, [], now) == Commit(db, 0)
  {
  }

  lemma CancelNext(db: Db, post: Id, rows: seq<nat>, i: nat, now: Instant)
    requires i < |rows| && CancelRemoved(db, post, rows[..i], now).Commit?
    ensures var tx := CancelRemoved(db, post, rows[..i], now);
            Removable(tx.db, rows[i], post) ==> rows[i] < |tx.db.jobs|
    ensures var tx := CancelRemoved(db, post, rows[..i], now);
            CancelRemoved(db, post, rows[..i + 1], now)
            == if !Removable(tx.db, rows[i], post) then tx
               else Put(tx.db, rows[i], Invalidate(tx.db.jobs[rows[i]], tx.db.jobs[rows[i]].lease, now), tx.result + 1)
  {
    hide Invalidate, SourceGone;
    assert rows[..i + 1][..i] == rows[..i];
  }

  lemma NothingEnabled(db: Db, single: bool, enabled: bool, now: Instant)
    ensures Enable(db, [], single, enabled, now) == Commit(db, 0)
  {
  }

  lemma EnableNext(db: Db, agents: seq<Id>, i: nat, single: bool, enabled: bool, now: Instant)
    requires i < |agents| && Enable(db, agents[..i], single, enabled, now).Commit?
    ensures var tx := Enable(db, agents[..i], single, enabled, now);
            Enable(db, agents[..i + 1], single, enabled, now)
            == match EnableOne(tx.db, agents[i], single, enabled, now)
               case Abort => Abort
               case Commit(after, one) => Commit(after, tx.result + one)
  {
    hide EnableOne;
    assert agents[..i + 1][..i] == agents[..i];
  }

  lemma OneEnabled(db: Db, id: Id, single: bool, enabled: bool, now: Instant)
    ensures var known := id in db.accounts && db.accounts[id].agent && id in db.settings;
            var r := EnableOne(db, id, single, enabled, now);
            if !known then r == Abort
            else
              var s := db.settings[id];
              if enabled && (db.accounts[id].disabled || !s.Valid() || !s.Ready()) then r == if single then Abort else Commit(db, 0)
              else r == Commit(db.(settings := db.settings[id := s.(enabled := enabled,
                                       pauseRevision := if enabled then s.pauseRevision else s.pauseRevision + 1, updatedAt := now)]), 1)
  {
    hide Settings.Valid;
  }

  lemma {:induction false} ExpireAborts(db: Db, rows: seq<nat>, cutoff: Instant, now: Instant, n: nat)
    requires n <= |rows| && Expire(db, rows[..n], cutoff, now).Abort?
    ensures Expire(db, rows, cutoff, now).Abort?
    decreases |rows|
  {
    hide SkipExpired;
    if n == |rows| {
      assert rows[..n] == rows;
    } else {
      assert rows[..|rows| - 1][..n] == rows[..n];
      ExpireAborts(db, rows[..|rows| - 1], cutoff, now, n);
    }
  }

  lemma {:induction false} CancelAborts(db: Db, post: Id, rows: seq<nat>, now: Instant, n: nat)
    requires n <= |rows| && CancelRemoved(db, post, rows[..n], now).Abort?
    ensures CancelRemoved(db, post, rows, now).Abort?
    decreases |rows|
  {
    hide Invalidate, Removable;
    if n == |rows| {
      assert rows[..n] == rows;
    } else {
      assert rows[..|rows| - 1][..n] == rows[..n];
      CancelAborts(db, post, rows[..|rows| - 1], now, n);
    }
  }

  lemma {:induction false} EnableAborts(db: Db, agents: seq<Id>, single: bool, enabled: bool, now: Instant, n: nat)
    requires n <= |agents| && Enable(db, agents[..n], single, enabled, now).Abort?
    ensures Enable(db, agents, single, enabled, now).Abort?
    decreases |agents|
  {
    hide Settings.Valid;
    if n == |agents| {
      assert agents[..n] == agents;
    } else {
      assert agents[..|agents| - 1][..n] == agents[..n];
      EnableAborts(db, agents[..|agents| - 1], single, enabled, now, n);
    }
  }

  lemma EditKeeps(s: Settings, policy: Policy, now: Instant)
    ensures var r := Schedule.ChangePolicy(s, policy, now);
            r.Some? ==>
              && r.value.policy == policy && r.value.updatedAt == now
              && r.value.enabled == s.enabled && r.value.pauseRevision == s.pauseRevision
  {
    hide Settings.Valid, Policy.Valid;
  }

  lemma ValidZone(s: Settings)
    requires s.Valid()
    ensures s.policy.zone.Valid()
  {
  }

  lemma ReplayReads(db: Db, row: nat, version: int, number: int, output: Result)
    requires row < |db.jobs| && db.Shaped()
    ensures var r := Replay(db, row, version, number, output);
            r.Commit? ==>
              r.db == db && r.result == db.jobs[row] && r.result.lease == version && r.result.published == Some(number)
  {
  }

  lemma WrittenKeepsRows(db: Db, kind: Trigger, action: Id, actor: Id, target: Option<Id>, content: Content, at: Instant)
    ensures var r := WriteAction(db, kind, action, actor, target, content, at);
            r.Some? ==> r.value.jobs == db.jobs && r.value.attempts == db.attempts
  {
  }
}
