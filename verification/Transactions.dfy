/** The protocol's transactions, each as one step on the database. */
module Transactions {
  import opened Basics
  import opened Policies
  import opened Attempts
  import opened Jobs
  import opened Eligibility
  import opened Admission
  import opened Tables

  // ---- Single-row job updates ----

  /** Skip a job past its expiry; None when the contract refuses. */
  function SkipExpired(job: Job, now: Instant): (r: Option<Job>)
    ensures r.Some? ==> ValidTransition(job, r.value, job.lease, now, None)
  {
    var after := job.(status := Skipped, reason := StaleTrigger, finishedAt := Some(now), leaseExpiresAt := None);
    if ValidTransition(job, after, job.lease, now, None) && job.origin.expiresAt <= now then Some(after) else None
  }

  /** Cancel work whose source is gone, or skip it when it has expired anyway. */
  function Invalidate(job: Job, version: int, now: Instant): (r: Option<Job>)
    ensures r.Some? ==> ValidSourceInvalidation(job, r.value, version, now)
  {
    var ended := job.(finishedAt := Some(now), leaseExpiresAt := None);
    var after := if now < job.origin.expiresAt then ended.(status := Cancelled, reason := SourceRemoved)
                 else ended.(status := Skipped, reason := StaleTrigger);
    if ValidSourceInvalidation(job, after, version, now) then Some(after) else None
  }

  /** End or requeue a leased job. */
  function Finish(job: Job, status: JobStatus, reason: Code, now: Instant, available: Instant): (r: Option<Job>)
    ensures r.Some? ==> ValidTransition(job, r.value, job.lease, now, None)
  {
    if !job.Leased(job.lease, now) || !(status == RetryWait || status == Skipped || status == Cancelled || status == JobFailed) then None
    else
      var ended := job.(status := status, reason := reason, leaseExpiresAt := None);
      var after := if status == RetryWait then ended.(availableAt := available, finishedAt := None) else ended.(finishedAt := Some(now));
      if ValidTransition(job, after, job.lease, now, None) then Some(after) else None
  }

  /** Commit a job update, or abort when it was refused. */
  function Put<R>(db: Db, row: nat, job: Option<Job>, result: R): Tx<R>
    requires row < |db.jobs|
  {
    if job.Some? then Commit(db.WithJob(row, job.value), result) else Abort
  }

  // ---- Claim and renew ----

  predicate Due(job: Job, now: Instant) {
    && job.origin.expiresAt > now && job.availableAt <= now
    && (job.status == Pending || job.status == RetryWait
        || (job.status == Running && job.leaseExpiresAt.Some? && job.leaseExpiresAt.value <= now))
  }

  function ClaimJob(job: Job, now: Instant): Option<Job> {
    if now >= job.origin.expiresAt then SkipExpired(job, now)
    else if job.RepostGone() then Invalidate(job, job.lease, now)
    else if job.lease == 0x7fff_ffff_ffff_ffff then None
    else
      var after := job.(status := Running, lease := job.lease + 1, leaseExpiresAt := Some(now + LEASE), reason := NoCode);
      if ValidTransition(job, after, job.lease, now, None) then Some(after) else None
  }

  /** Take one due row; the result is the claimed job, absent when the row was ended instead. */
  function Claim(db: Db, row: nat, now: Instant, later: Instant): Tx<Option<Job>> {
    if row >= |db.jobs| || !Due(db.jobs[row], now) then Commit(db, None)
    else
      var after := ClaimJob(db.jobs[row], later);
      Put(db, row, after, if after.Some? && after.value.status == Running then after else None)
  }

  function Renew(db: Db, row: nat, version: int, now: Instant): Tx<Instant> {
    if row >= |db.jobs| then Abort
    else
      var job := db.jobs[row];
      var expiry := now + LEASE;
      if !job.Leased(version, now) || job.RepostGone() then Abort
      else if expiry <= job.leaseExpiresAt.value then Commit(db, job.leaseExpiresAt.value)
      else
        var after := job.(leaseExpiresAt := Some(expiry));
        Put(db, row, if ValidTransition(job, after, version, now, None) then Some(after) else None, expiry)
  }

  // ---- Reserve ----

  datatype Admitted = Admitted(attempt: Option<Attempt>, reason: Code)

  /** The clock readings of one reservation: after the locks, after the accounting, and after the last policy read. */
  datatype Readings = Readings(now: Instant, counted: Instant, final: Instant)

  function Refuse(db: Db, row: nat, job: Option<Job>, reason: Code): Tx<Admitted>
    requires row < |db.jobs|
  {
    Put(db, row, job, Admitted(None, reason))
  }

  function NewAttempt(db: Db, row: nat, version: int, s: Settings, prompt: nat, at: Readings): Attempt
    requires row < |db.attempts|
  {
    Attempt(row, |db.attempts[row]| + 1, version, Some(s.pauseRevision), prompt, None, None, NoCode, None,
            DateOf(at.now), RESERVED_TOKENS, None, None, Reserved, NoCode, None, at.final, None)
  }

  function WithReservation(db: Db, row: nat, attempt: Attempt): Db
    requires row < |db.attempts|
  {
    db.(attempts := db.attempts[row := db.attempts[row] + [attempt]])
  }

  /** The last stage: accounting, the final readings and the budgets. */
  function Spend(db: Db, row: nat, version: int, s: Settings, prompt: nat, at: Readings): Tx<Admitted>
    requires row < |db.jobs| && db.Shaped()
  {
    var job := db.jobs[row];
    var day := DateOf(at.now);
    if at.counted >= job.origin.expiresAt then Refuse(db, row, SkipExpired(job, at.counted), StaleTrigger)
    else if !job.Leased(version, at.counted) || DateOf(at.counted) != day then Abort
    else if at.final >= job.origin.expiresAt then Refuse(db, row, SkipExpired(job, at.final), StaleTrigger)
    else if at.final < at.counted || !job.Leased(version, at.final) || DateOf(at.final) != day then Abort
    else if !PolicyAllows(db, job, s, at.counted) || !TimeAllowed(job.origin, s.policy, SourceCreated(db, job.origin), at.final) then
      Refuse(db, row, Finish(job, Skipped, PolicyDenied, at.final, at.final), PolicyDenied)
    else if Charge(db, day, None) > DAILY_TOKENS - RESERVED_TOKENS
            || Charge(db, day, Some(job.origin.agent)) > s.policy.dailyTokens - RESERVED_TOKENS then
      Refuse(db, row, Finish(job, Skipped, BudgetExhausted, at.final, at.final), BudgetExhausted)
    else
      var attempt := NewAttempt(db, row, version, s, prompt, at);
      if !attempt.Valid() then Abort
      else Commit(WithReservation(db, row, attempt), Admitted(Some(attempt), NoCode))
  }

  /** The history stage: one attempt per lease, bounded attempts, and an acknowledged previous outcome. */
  function Retain(db: Db, row: nat, version: int, s: Settings, prompt: nat, at: Readings): Tx<Admitted>
    requires row < |db.jobs| && db.Shaped()
  {
    var job := db.jobs[row];
    var attempts := db.attempts[row];
    if exists k :: 0 <= k < |attempts| && attempts[k].lease == version then Commit(db, Admitted(None, AlreadyAdmitted))
    else if InvalidOutputs(attempts) > MAX_REGENERATIONS then
      Refuse(db, row, Finish(job, JobFailed, InvalidOutput, at.now, at.now), InvalidOutput)
    else if |attempts| >= MAX_ATTEMPTS then
      Refuse(db, row, Finish(job, JobFailed, AttemptLimit, at.now, at.now), AttemptLimit)
    else if attempts != [] && (attempts[|attempts| - 1].finishedAt.None? || job.availableAt <= attempts[|attempts| - 1].finishedAt.value) then
      Commit(db, Admitted(None, RecoveryRequired))
    else Spend(db, row, version, s, prompt, at)
  }

  /** Reserve one provider call, or end the job that may no longer make one. A prompt that cannot be built aborts. */
  function Reserve(db: Db, row: nat, version: int, prompt: Option<nat>, at: Readings): Tx<Admitted>
    requires db.Shaped()
  {
    if row >= |db.jobs| then Abort
    else
      var job := db.jobs[row];
      if job.status != Running || job.lease != version then Abort
      else if at.now >= job.origin.expiresAt then Refuse(db, row, SkipExpired(job, at.now), StaleTrigger)
      else if !job.Leased(version, at.now) then Abort
      else match StandingOf(db, job.origin)
        case Denied(reason) => Refuse(db, row, Finish(job, Cancelled, reason, at.now, at.now), reason)
        case Granted(s) =>
          if !PolicyAllows(db, job, s, at.now) then
            Refuse(db, row, Finish(job, Skipped, PolicyDenied, at.now, at.now), PolicyDenied)
          else if prompt.None? then Abort
          else Retain(db, row, version, s, prompt.value, at)
  }

  // ---- Settle and recover ----

  /** Whether an already finished row is exactly what the same observation would have written, finish time aside. */
  predicate SameObservation(before: Attempt, after: Attempt) {
    before == after.(finishedAt := before.finishedAt)
  }

  /** Record one observation of a call; the result says whether it is the recorded one. */
  function Settle(db: Db, reservation: Attempt, outcome: Outcome, requestId: Option<nat>, now: Instant): Tx<bool>
    requires db.Shaped()
  {
    var row, number := reservation.job, reservation.number;
    if !reservation.Valid() || reservation.status != Reserved || !ValidOutcome(outcome) then Abort
    else if row >= |db.jobs| || number > |db.attempts[row]| then Abort
    else
      var before := db.attempts[row][number - 1];
      var n := Normalise(outcome);
      if before.Reservation() != reservation.Reservation() then Abort
      else if n.result.Some? && n.result.value.kind != db.jobs[row].origin.output then Abort
      else
        var after := Settled(reservation, n, requestId, now);
        if before.status != Reserved then Commit(db, SameObservation(before, after))
        else if !ValidAttemptTransition(before, after) then Abort
        else Commit(db.WithAttempt(row, number - 1, after), true)
  }

  /** A reservation nobody can still be calling for. */
  predicate Abandoned(job: Job, attempt: Attempt, now: Instant) {
    && attempt.status == Reserved
    && !(job.status == Running && job.lease == attempt.lease && job.leaseExpiresAt.Some?
         && now < job.leaseExpiresAt.value && now < job.origin.expiresAt)
  }

  /** Close one abandoned reservation as unknown, keeping its full charge; the result counts it. */
  function RecoverOne(db: Db, row: nat, number: int, now: Instant): Tx<nat>
    requires db.Shaped()
  {
    if row >= |db.jobs| || !(1 <= number <= |db.attempts[row]|) then Commit(db, 0)
    else
      var before := db.attempts[row][number - 1];
      var after := before.(status := Unknown, error := LeaseLost, finishedAt := Some(now));
      if !Abandoned(db.jobs[row], before, now) then Commit(db, 0)
      else if !ValidAttemptTransition(before, after) then Abort
      else Commit(db.WithAttempt(row, number - 1, after), 1)
  }

  /** One recovery transaction closes a batch of abandoned reservations, reading the clock anew for each, or none of them. */
  function RecoverAll(db: Db, ids: seq<(nat, int)>, clocks: seq<Instant>): (r: Tx<nat>)
    requires db.Shaped() && |ids| == |clocks|
    ensures r.Commit? ==> r.db.Shaped()
    decreases ids
  {
    if ids == [] then Commit(db, 0)
    else
      var n := |ids| - 1;
      match RecoverAll(db, ids[..n], clocks[..n])
      case Abort => Abort
      case Commit(done, count) =>
        match RecoverOne(done, ids[n].0, ids[n].1, clocks[n])
        case Abort => Abort
        case Commit(after, one) => Commit(after, count + one)
  }

  // ---- Complete ----

  /** What the latest durable outcome asks of its job: stay running, or finish with a status, a reason and an availability. */
  datatype Verdict = Stay | End(status: JobStatus, reason: Code, available: Instant)

  function Judge(job: Job, attempts: seq<Attempt>, version: int, now: Instant, jitter: int): Verdict
    requires attempts != []
  {
    var attempt := attempts[|attempts| - 1];
    if attempt.status == Succeeded then
      match attempt.decision
      case Some(Skip) => End(Skipped, attempt.skipReason, now)
      case Some(Publish) => if attempt.lease == version then Stay else End(JobFailed, OutcomeUnavailable, now)
      case None => End(JobFailed, OutcomeUnavailable, now)
    else
      var failure := if attempt.status == Unknown && attempt.error == LeaseLost then Timeout else attempt.error;
      if !failure.IsFailureCode() then End(JobFailed, OutcomeUnavailable, now)
      else match NextRetry(now, job.origin.expiresAt, |attempts|, InvalidOutputs(attempts), failure, attempt.notBefore, jitter)
        case Some(next) => End(RetryWait, attempt.error, next)
        case None =>
          End(if failure == ExecutionCancelled then Cancelled
              else if failure == UnsafeOutput || failure == RepeatedOutput then Skipped
              else JobFailed, attempt.error, now)
  }

  /** Reconcile the latest durable observation under the current fence. */
  function Complete(db: Db, row: nat, version: int, number: int, jitter: int, now: Instant): Tx<JobStatus>
    requires db.Shaped()
  {
    if !(0 <= jitter <= MAX_JITTER) || row >= |db.jobs| then Abort
    else
      var job, attempts := db.jobs[row], db.attempts[row];
      if attempts == [] || |attempts| > MAX_ATTEMPTS || job.lease != version || version < 1 then Abort
      else
        var attempt := attempts[|attempts| - 1];
        if attempt.number != number || attempt.lease > version || !attempt.Finished() then Abort
        else if job.status != Running then
          if job.status == Pending then Abort else Commit(db, job.status)
        else if now >= job.origin.expiresAt then Put(db, row, SkipExpired(job, now), Skipped)
        else if job.RepostGone() then Put(db, row, Invalidate(job, version, now), Cancelled)
        else if !job.Leased(version, now) || now < attempt.finishedAt.value then Abort
        else if attempt.lease < version && job.availableAt > attempt.finishedAt.value then Commit(db, Running)
        else match Judge(job, attempts, version, now, jitter)
          case Stay => Commit(db, Running)
          case End(status, reason, available) => Put(db, row, Finish(job, status, reason, now, available), status)
  }

  // ---- Deny ----

  function TerminalStatus(denial: Code): Option<JobStatus> {
    match denial
    case ContextRejected => Some(Skipped)
    case PublicationDenied => Some(Skipped)
    case PolicyDenied => Some(Skipped)
    case SourceRemoved => Some(Cancelled)
    case ExecutionCancelled => Some(Cancelled)
    case OutcomeUnavailable => Some(JobFailed)
    case _ => None
  }

  /** Acknowledge a local rejection under the current fence. */
  function Deny(db: Db, row: nat, version: int, denial: Code, now: Instant): Tx<JobStatus> {
    if TerminalStatus(denial).None? || row >= |db.jobs| then Abort
    else
      var job, status := db.jobs[row], TerminalStatus(denial).value;
      if version < 1 || job.lease != version then Abort
      else if job.status != Running then
        if (job.status == status && job.reason == denial) || (job.status == Skipped && job.reason == StaleTrigger)
           || (job.status == Cancelled && job.reason == SourceRemoved)
        then Commit(db, job.status) else Abort
      else if now >= job.origin.expiresAt then Put(db, row, SkipExpired(job, now), Skipped)
      else if job.RepostGone() then Put(db, row, Invalidate(job, version, now), Cancelled)
      else Put(db, row, Finish(job, status, denial, now, now), status)
  }

  // ---- Operator retry ----

  /** Whether the retained history lets an operator reopen a failed job. */
  predicate Reopenable(job: Job, attempts: seq<Attempt>) {
    && job.status == JobFailed && |attempts| < MAX_ATTEMPTS
    && (forall k :: 0 <= k < |attempts| ==> attempts[k].status != Reserved && attempts[k].error != AccountingUnsupported)
    && InvalidOutputs(attempts) <= MAX_REGENERATIONS
    && (if attempts != [] && attempts[|attempts| - 1].status == Succeeded then
          job.reason == OutcomeUnavailable && attempts[|attempts| - 1].decision != Some(Skip)
        else
          job.reason.IsFailureCode() && job.reason != UnsafeOutput && job.reason != RepeatedOutput && job.reason != ExecutionCancelled)
  }

  /** The fresh availability floor: never before the provider's hint, always strictly after the last finished attempt. */
  function Reopened(attempts: seq<Attempt>, now: Instant): Instant {
    if attempts == [] then now
    else
      var last := attempts[|attempts| - 1];
      var hinted := if last.notBefore.Some? && last.notBefore.value > now then last.notBefore.value else now;
      if last.finishedAt.Some? && hinted <= last.finishedAt.value then last.finishedAt.value + 1 else hinted
  }

  function Retry(db: Db, row: nat, now: Instant): Tx<Job>
    requires db.Shaped()
  {
    if row >= |db.jobs| then Abort
    else
      var job, attempts := db.jobs[row], db.attempts[row];
      match StandingOf(db, job.origin)
      case Denied(_) => Abort
      case Granted(s) =>
        if !Reopenable(job, attempts) || now >= job.origin.expiresAt || !PolicyAllows(db, job, s, now) then Abort
        else
          var available := Reopened(attempts, now);
          var after := job.(status := RetryWait, reason := OperatorRetry, availableAt := available, finishedAt := None, leaseExpiresAt := None);
          if available >= job.origin.expiresAt || !ValidTransition(job, after, job.lease, now, None) then Abort
          else Commit(db.WithJob(row, after), after)
  }

  // ---- Publish ----

  /** An agent a publication or action concerns, with the fresh id and draws of its turn. */
  datatype Pick = Pick(agent: Id, uuid: nat, sample: int, delay: int)

  function CandidatesOf(db: Db, picks: seq<Pick>, actor: Id): (r: seq<Candidate>)
    ensures forall c :: c in r ==> c.settings.agent != actor && c.settings.Valid()
  {
    if picks == [] then []
    else
      var pick := picks[|picks| - 1];
      CandidatesOf(db, picks[..|picks| - 1], actor)
      + (if pick.agent != actor && pick.agent in db.accounts && db.accounts[pick.agent].agent && !db.accounts[pick.agent].disabled
            && pick.agent in db.settings && db.settings[pick.agent].enabled && db.settings[pick.agent].Valid()
            && db.settings[pick.agent].agent == pick.agent
         then [Candidate(db.settings[pick.agent], pick.uuid, pick.sample, pick.delay)] else [])
  }

  /** Everything a publication brings besides its job: the output, a fresh result id, the children's picks, the safety
      verdict on the output, and the clock readings before the writes, at child admission and after them. */
  datatype Printing = Printing(
    number: int, output: Result, resultId: Id, safe: bool, picks: seq<Pick>, now: Instant, admitted: Instant, final: Instant)

  predicate OutputBinds(job: Job, attempt: Attempt, output: Result, now: Instant) {
    && job.Valid() && job.Leased(attempt.lease, now) && attempt.Valid()
    && attempt.job == job.origin.row && attempt.status == Succeeded
    && attempt.startedAt >= job.availableAt && attempt.finishedAt.value <= now
    && output.decision == Publish && output.kind == job.origin.output && attempt.digest == Some(output)
  }

  /** A finished publication is answered again only for the exact attempt and output. */
  function Replay(db: Db, row: nat, version: int, number: int, output: Result): Tx<Job>
    requires row < |db.jobs| && db.Shaped()
  {
    var job := db.jobs[row];
    if job.lease != version || job.published != Some(number) || !(1 <= number <= |db.attempts[row]|) then Abort
    else
      var attempt := db.attempts[row][number - 1];
      if attempt.job == job.origin.row && attempt.lease == version && attempt.status == Succeeded && attempt.decision == Some(Publish)
         && attempt.digest == Some(output) && output.decision == Publish && output.kind == job.origin.output
      then Commit(db, job) else Abort
  }

  function Printed(job: Job, p: Printing): Job {
    var done := job.(status := JobSucceeded, finishedAt := Some(p.now), leaseExpiresAt := None, published := Some(p.number));
    if job.origin.output == OutputReply then done.(resultReply := Some(p.resultId)) else done.(resultPost := Some(p.resultId))
  }

  function InsertContent(db: Db, job: Job, p: Printing): Option<Db> {
    if job.origin.output == OutputReply then
      if p.resultId in db.replies || job.origin.sourcePost.None? then None
      else Some(db.(replies := db.replies[p.resultId := Reply(job.origin.sourcePost.value, job.origin.agent, false, p.now, p.output.content)]))
    else
      if p.resultId in db.posts then None
      else
        var quoted := if job.origin.output == OutputQuote then job.origin.sourcePost else None;
        Some(db.(posts := db.posts[p.resultId := Post(job.origin.agent, quoted, false, p.now, p.output.content)]))
  }

  function ChildSource(job: Job, p: Printing): Source {
    if job.origin.output == OutputReply && job.origin.sourcePost.Some? then
      Source(Continuation, p.resultId, job.origin.agent, job.origin.sourcePost.value, Some(p.resultId), None, p.now)
    else Source(Continuation, p.resultId, job.origin.agent, p.resultId, None, None, p.now)
  }

  /** The writes of a publication: content, job, settings and the children it reserves. */
  function Print(db: Db, row: nat, s: Settings, p: Printing): (r: Option<Db>)
    requires row < |db.jobs| && db.Shaped() && db.jobs[row].origin.root < |db.jobs|
    ensures r.Some? ==> |db.jobs| <= |r.value.jobs| && r.value.Shaped()
  {
    var job := db.jobs[row];
    var after := Printed(job, p);
    var stored :- InsertContent(db, job, p);
    var written := stored.WithJob(row, after).(settings := db.settings[job.origin.agent := s.(lastPublishedAt := Some(p.now), updatedAt := p.now)]);
    var line := Child(after, written.jobs[job.origin.root]);
    var rows :- Admit(written.jobs, ChildSource(job, p), line, CandidatesOf(db, p.picks, job.origin.agent), p.admitted);
    Some(written.WithRows(rows))
  }

  /** Whether the locked state authorises this attempt's output for this job at the first clock reading. */
  predicate Authorised(db: Db, row: nat, version: int, s: Settings, p: Printing)
    requires row < |db.jobs| && db.Shaped() && 1 <= p.number <= |db.attempts[row]|
  {
    var job, attempt := db.jobs[row], db.attempts[row][p.number - 1];
    && attempt.decision == Some(Publish) && attempt.pauseRevision == Some(s.pauseRevision)
    && job.Leased(version, p.now) && OutputBinds(job, attempt, p.output, p.now) && p.safe
    && PolicyAllows(db, job, s, p.now) && ValidTransition(job, Printed(job, p), version, p.now, Some(attempt))
  }

  /** The rechecks after every write, at the last clock reading. */
  predicate StillAuthorised(db: Db, row: nat, version: int, s: Settings, p: Printing)
    requires row < |db.jobs|
  {
    var job := db.jobs[row];
    p.final >= p.now && job.Leased(version, p.final)
    && TimeAllowed(job.origin, s.policy, SourceCreated(db, job.origin), p.final)
  }

  function PublishLive(db: Db, row: nat, version: int, p: Printing): Tx<Job>
    requires row < |db.jobs| && db.Shaped()
  {
    var job := db.jobs[row];
    if p.output.decision != Publish || p.output.kind != job.origin.output then Abort
    else match StandingOf(db, job.origin)
      case Denied(_) => Abort
      case Granted(s) =>
        if job.origin.root >= |db.jobs| || !(1 <= p.number <= |db.attempts[row]|) || !Authorised(db, row, version, s, p) then Abort
        else match Print(db, row, s, p)
          case None => Abort
          case Some(after) => if StillAuthorised(db, row, version, s, p) then Commit(after, after.jobs[row]) else Abort
  }

  /** Publish a settled output exactly once, admitting its continuations in the same transaction. */
  function PublishJob(db: Db, row: nat, version: int, p: Printing): Tx<Job>
    requires db.Shaped()
  {
    if row >= |db.jobs| then Abort
    else if db.jobs[row].status == JobSucceeded then Replay(db, row, version, p.number, p.output)
    else if db.jobs[row].status != Running || db.jobs[row].lease != version then Abort
    else PublishLive(db, row, version, p)
  }
}
