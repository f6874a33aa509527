/** What each transaction on a job decides, and the row it leaves, in terms of the columns it reads. */
module Decisions {
  import opened Basics
  import opened Policies
  import opened Attempts
  import opened Jobs
  import opened Eligibility
  import opened Tables
  import opened Transactions
  import opened Protocol
  import opened Effects
  import opened Growth
  import opened Admission
  import opened Changes
  import opened Histories
  import opened Invariants
  import opened Authority
  import opened Recheck
  import Outcomes
  import Schedule
  import Selection
  import Retries

  // ---- Authority, both ways ----

  /** When the thing a job responds to was written. */
  function SourceInstant(db: Db, o: Origin): Instant
    requires SourceThere(db, o)
  {
    match o.sourceReply
    case Some(r) => db.replies[r].createdAt
    case None => if o.kind == RepostTrigger then db.reposts[o.sourceRepost.value].createdAt else db.posts[o.sourcePost.value].createdAt
  }

  predicate HasSource(db: Db, o: Origin) {
    o.kind == Scheduled || SourceThere(db, o)
  }

  /** Settings that can be run: switched on, valid, and with the next slot of a sampled day. */
  predicate Ready(db: Db, agent: Id) {
    !SwitchedOff(db, agent) && db.settings[agent].Valid() && (db.settings[agent].remaining > 0 ==> db.settings[agent].nextPostAt.Some?)
  }

  function SourceAt(db: Db, o: Origin): Option<Instant>
    requires HasSource(db, o)
  {
    if o.kind == Scheduled then None else Some(SourceInstant(db, o))
  }

  /** Agent, source and every quota let the job run. */
  ghost predicate MayRun(db: Db, job: Job, now: Instant) {
    && HasSource(db, job.origin) && Ready(db, job.origin.agent)
    && var s := db.settings[job.origin.agent];
    Entitled(db.jobs, job, s.policy, s.lastPublishedAt, SourceAt(db, job.origin), now)
  }

  /** The part of it that only the clock can take away. */
  predicate InTime(db: Db, o: Origin, p: Policy, now: Instant)
    requires HasSource(db, o)
  {
    if o.kind == Scheduled then
      p.Valid() && p.scheduledMax > 0 && now != 0 && o.createdAt != 0 && o.createdAt <= now < o.expiresAt && OnItsSlot(o, p, now)
    else SourceInstant(db, o) != 0 && Within(SourceInstant(db, o), p, now)
  }

  lemma SourceDated(db: Db, o: Origin)
    requires ValidOrigin(o) && o.kind != Scheduled && SourceThere(db, o)
    ensures SourceCreated(db, o) == Some(SourceInstant(db, o))
  {
  }

  /** The two denials name what is missing first: the source, then the agent. */
  lemma StandingExactly(db: Db, o: Origin)
    requires ValidOrigin(o)
    ensures StandingOf(db, o) ==
              if !HasSource(db, o) then Standing.Denied(SourceRemoved)
              else if !Ready(db, o.agent) then Standing.Denied(PolicyDisabled)
              else Granted(db.settings[o.agent])
  {
    hide SourceValid, SourceThere, AgentReady, SwitchedOff, Settings.Valid, ValidOrigin;
    SourceColumns(db, o);
    AgentColumns(db, o.agent);
  }

  lemma PolicyExactly(db: Db, job: Job, now: Instant)
    requires job.Valid() && HasSource(db, job.origin) && Ready(db, job.origin.agent)
    ensures PolicyAllows(db, job, db.settings[job.origin.agent], now) <==> MayRun(db, job, now)
  {
    hide Allowed, Entitled, SourceThere, Settings.Valid, SourceInstant, SourceCreated, Job.Valid;
    var o, s := job.origin, db.settings[job.origin.agent];
    JobOrigin(job);
    AllowedExactly(db.jobs, job, s.policy, s.lastPublishedAt, SourceCreated(db, o), now);
    if o.kind == Scheduled {
      SourceAside(db.jobs, job, s.policy, s.lastPublishedAt, SourceCreated(db, o), None, now);
    } else {
      SourceDated(db, o);
    }
  }

  /** Scheduled work has no source. */
  lemma SourceAside(jobs: seq<Job>, job: Job, p: Policy, last: Option<Instant>, a: Option<Instant>, b: Option<Instant>, now: Instant)
    requires job.origin.kind == Scheduled
    ensures Entitled(jobs, job, p, last, a, now) == Entitled(jobs, job, p, last, b, now)
  {
    hide Job.Valid, Policy.Valid, SpacedBehind, OnItsSlot, DayRank;
  }

  lemma TimeExactly(db: Db, job: Job, p: Policy, now: Instant)
    requires job.Valid() && HasSource(db, job.origin)
    ensures TimeAllowed(job.origin, p, SourceCreated(db, job.origin), now) <==> InTime(db, job.origin, p, now)
  {
    hide Schedule.SlotAllowed, OnItsSlot, SourceThere, SourceInstant, SourceCreated, Policy.Valid, Job.Valid;
    var o := job.origin;
    JobOrigin(job);
    if o.kind != Scheduled {
      SourceDated(db, o);
    } else if p.Valid() {
      SlotTime(o, p, now);
    } else {
      SlotInvalid(o, p, now);
    }
  }

  lemma SlotInvalid(o: Origin, p: Policy, now: Instant)
    requires !p.Valid()
    ensures !Schedule.SlotAllowed(SlotOf(o.key), p, o.createdAt, o.expiresAt, now)
  {
    hide Policy.Valid;
  }

  lemma SlotTime(o: Origin, p: Policy, now: Instant)
    requires p.Valid()
    ensures p.scheduledMax >= 0 && p.zone.Valid()
    ensures Schedule.SlotAllowed(SlotOf(o.key), p, o.createdAt, o.expiresAt, now)
            <==> p.scheduledMax > 0 && now != 0 && o.createdAt != 0 && o.createdAt <= now < o.expiresAt && OnItsSlot(o, p, now)
  {
    hide Zones.Zone.Date, Policy.Window;
  }

  // ---- Reservation ----

  /** The job's lease and its time are open at a reading. */
  predicate OpenAt(job: Job, version: int, now: Instant) {
    Live(job, version, now) && job.availableAt <= now
  }

  lemma OpenIsLeased(job: Job, version: int, now: Instant)
    requires version > 0
    ensures OpenAt(job, version, now) <==> job.Leased(version, now)
  {
  }

  /** A job ended where it stood. */
  function Ended(job: Job, status: JobStatus, reason: Code, at: Instant): Job {
    job.(status := status, reason := reason, leaseExpiresAt := None, finishedAt := Some(at))
  }

  /** All three readings are live, in order, and on one UTC day. */
  predicate Steadily(job: Job, version: int, at: Readings) {
    && version > 0 && OpenAt(job, version, at.now) && OpenAt(job, version, at.counted) && OpenAt(job, version, at.final)
    && at.now != 0 && at.counted != 0 && at.final != 0 && at.counted <= at.final
    && at.now / 86_400_000_000 == at.counted / 86_400_000_000 == at.final / 86_400_000_000
  }

  /** The call a reservation grants: the next number under the caller's lease, bound to the agent's present pause revision, and
      charged in full to the day. */
  function Call(db: Db, row: nat, version: int, prompt: nat, at: Readings): Attempt
    requires row < |db.jobs| && row < |db.attempts| && db.jobs[row].origin.agent in db.settings
  {
    Attempt(row, |db.attempts[row]| + 1, version, Some(db.settings[db.jobs[row].origin.agent].pauseRevision), prompt, None, None, NoCode, None,
            at.now / 86_400_000_000, 132096, None, None, Reserved, NoCode, None, at.final, None)
  }

  datatype Answer = Grants | Keeps(reason: Code) | Ends(status: JobStatus, reason: Code, at: Instant)

  /** What a live job's worker is answered. */
  ghost function AnswerFor(w: World, row: nat, version: int, at: Readings): Answer
    requires Aligned(w) && row < |w.db.jobs|
  {
    var job, attempts := w.db.jobs[row], w.db.attempts[row];
    var o := job.origin;
    if !HasSource(w.db, o) then Ends(Cancelled, SourceRemoved, at.now)
    else if !Ready(w.db, o.agent) then Ends(Cancelled, PolicyDisabled, at.now)
    else if !MayRun(w.db, job, at.now) then Ends(Skipped, PolicyDenied, at.now)
    else if attempts != [] && attempts[|attempts| - 1].lease == version then Keeps(AlreadyAdmitted)
    else if InvalidOutputs(attempts) > 1 then Ends(JobFailed, InvalidOutput, at.now)
    else if |attempts| >= 3 then Ends(JobFailed, AttemptLimit, at.now)
    else if attempts != [] && !w.history.acknowledged[row] then Keeps(RecoveryRequired)
    else if !MayRun(w.db, job, at.counted) || !InTime(w.db, o, w.db.settings[o.agent].policy, at.final) then Ends(Skipped, PolicyDenied, at.final)
    else if !Outcomes.MoneyFits(w.db, o.agent, w.db.settings[o.agent].policy.dailyTokens, at.now / 86_400_000_000) then
      Ends(Skipped, BudgetExhausted, at.final)
    else Grants
  }

  ghost predicate Answered(db: Db, row: nat, version: int, prompt: nat, at: Readings, r: Tx<Admitted>, a: Answer)
    requires db.Shaped() && row < |db.jobs|
  {
    match a
    case Grants =>
      && db.jobs[row].origin.agent in db.settings
      && r == Commit(db.(attempts := db.attempts[row := db.attempts[row] + [Call(db, row, version, prompt, at)]]),
                     Admitted(Some(Call(db, row, version, prompt, at)), NoCode))
    case Keeps(reason) => r == Commit(db, Admitted(None, reason))
    case Ends(status, reason, ended) => r == Commit(db.WithJob(row, Ended(db.jobs[row], status, reason, ended)), Admitted(None, reason))
  }

  /** In a reachable state a live job is always answered. It obtains a call exactly when its source and its agent let it run, its
      history has room, nothing waits to be acknowledged and the day's money fits; otherwise it ends, or stays, with the reason
      of what is missing. */
  lemma ReservationDecides(w: World, row: nat, version: int, prompt: nat, at: Readings)
    requires Inv(w) && row < |w.db.jobs| && Steadily(w.db.jobs[row], version, at)
    ensures Answered(w.db, row, version, prompt, at, Reserve(w.db, row, version, Some(prompt), at), AnswerFor(w, row, version, at))
  {
    hide Job.Valid, StandingOf, PolicyAllows, Retain, RowSound, Chains.Chained, MayRun, HasSource, Ready, InTime, Outcomes.MoneyFits, Finish,
         SkipExpired, InvalidOutputs, Call;
    var job := w.db.jobs[row];
    RowFacts(w, row);
    JobOrigin(job);
    StandingExactly(w.db, job.origin);
    OpenIsLeased(job, version, at.now);
    Endings(job, version, at.now);
    if HasSource(w.db, job.origin) && Ready(w.db, job.origin.agent) {
      PolicyExactly(w.db, job, at.now);
      NotGone(w.db, job);
      if MayRun(w.db, job, at.now) {
        RetentionDecides(w, row, version, prompt, at);
      }
    }
  }

  lemma RowFacts(w: World, row: nat)
    requires Inv(w) && row < |w.db.jobs|
    ensures w.db.jobs[row].Valid() && |w.db.attempts[row]| <= 3
  {
    hide Job.Valid, Fenced, Sequenced, AvailabilityTells, Concluded, Accounted, Chains.Chained, Recorded;
    Retries.Sound(w, row);
  }

  /** Ending a live job is never refused. */
  lemma Endings(job: Job, version: int, now: Instant)
    requires job.Valid() && job.Leased(version, now)
    ensures forall reason :: reason != NoCode ==> Finish(job, Cancelled, reason, now, now) == Some(Ended(job, Cancelled, reason, now))
    ensures !job.RepostGone() ==> forall reason :: reason != NoCode ==>
              && Finish(job, Skipped, reason, now, now) == Some(Ended(job, Skipped, reason, now))
              && Finish(job, JobFailed, reason, now, now) == Some(Ended(job, JobFailed, reason, now))
  {
    hide ValidOrigin;
  }

  /** A valid job with its source has not lost its repost. */
  lemma NotGone(db: Db, job: Job)
    requires HasSource(db, job.origin) && job.Valid()
    ensures !job.RepostGone()
  {
  }

  lemma RetentionDecides(w: World, row: nat, version: int, prompt: nat, at: Readings)
    requires Inv(w) && row < |w.db.jobs| && Steadily(w.db.jobs[row], version, at)
    requires HasSource(w.db, w.db.jobs[row].origin) && Ready(w.db, w.db.jobs[row].origin.agent) && MayRun(w.db, w.db.jobs[row], at.now)
    ensures var s := w.db.settings[w.db.jobs[row].origin.agent];
            Answered(w.db, row, version, prompt, at, Retain(w.db, row, version, s, prompt, at), AnswerFor(w, row, version, at))
  {
    hide Job.Valid, Spend, RowSound, Chains.Chained, MayRun, HasSource, Ready, InTime, Outcomes.MoneyFits, Finish, SkipExpired, InvalidOutputs, Call;
    var job, attempts := w.db.jobs[row], w.db.attempts[row];
    RowFacts(w, row);
    OpenIsLeased(job, version, at.now);
    Endings(job, version, at.now);
    NotGone(w.db, job);
    Outcomes.HistoryTells(w, row, version);
    if attempts == [] || (attempts[|attempts| - 1].lease != version && InvalidOutputs(attempts) <= 1 && |attempts| < 3
                          && w.history.acknowledged[row]) {
      SpendingDecides(w, row, version, prompt, at);
    }
  }

  lemma SpendingDecides(w: World, row: nat, version: int, prompt: nat, at: Readings)
    requires Inv(w) && row < |w.db.jobs| && Steadily(w.db.jobs[row], version, at)
    requires HasSource(w.db, w.db.jobs[row].origin) && Ready(w.db, w.db.jobs[row].origin.agent) && MayRun(w.db, w.db.jobs[row], at.now)
    ensures var db, o := w.db, w.db.jobs[row].origin;
            var s := db.settings[o.agent];
            Answered(db, row, version, prompt, at, Spend(db, row, version, s, prompt, at),
                     if !MayRun(db, db.jobs[row], at.counted) || !InTime(db, o, s.policy, at.final) then Ends(Skipped, PolicyDenied, at.final)
                     else if !Outcomes.MoneyFits(db, o.agent, s.policy.dailyTokens, at.now / 86_400_000_000) then
                       Ends(Skipped, BudgetExhausted, at.final)
                     else Grants)
  {
    hide Job.Valid, RowSound, Chains.Chained, MayRun, HasSource, InTime, Finish, SkipExpired, Charge, PolicyAllows, TimeAllowed, SourceCreated;
    var job := w.db.jobs[row];
    var s := w.db.settings[job.origin.agent];
    RowFacts(w, row);
    NotGone(w.db, job);
    PolicyExactly(w.db, job, at.counted);
    TimeExactly(w.db, job, s.policy, at.final);
    OpenIsLeased(job, version, at.now);
    OpenIsLeased(job, version, at.counted);
    OpenIsLeased(job, version, at.final);
    Endings(job, version, at.final);
    CallValid(w.db, row, version, prompt, at);
  }

  lemma CallValid(db: Db, row: nat, version: int, prompt: nat, at: Readings)
    requires db.Shaped() && row < |db.jobs| && Ready(db, db.jobs[row].origin.agent) && |db.attempts[row]| <= 3
    requires version > 0 && at.final != 0 && at.now / 86_400_000_000 == at.final / 86_400_000_000
    ensures var s := db.settings[db.jobs[row].origin.agent];
            NewAttempt(db, row, version, s, prompt, at) == Call(db, row, version, prompt, at) && Call(db, row, version, prompt, at).Valid()
  {
    hide Policy.Valid;
  }

  // ---- Publication ----

  /** Ids are not zero, and every draw is within its bounds. */
  predicate Drawn(db: Db, job: Job, p: Printing) {
    && p.resultId != 0 && job.origin.sourcePost != Some(0) && (forall i :: 0 <= i < |p.picks| ==> PickDrawn(db, p.picks[i]))
  }

  predicate PickDrawn(db: Db, pick: Pick) {
    && pick.uuid != 0 && 0 <= pick.sample < 10000
    && (pick.agent in db.settings ==>
          0 <= pick.delay <= db.settings[pick.agent].policy.responseMax - db.settings[pick.agent].policy.responseMin)
  }

  /** The last attempt succeeded with exactly this output, under the caller's lease and the agent's present pause revision, and
      no retry was acknowledged since. */
  ghost predicate Binds(w: World, row: nat, version: int, p: Printing)
    requires Aligned(w) && row < |w.db.jobs| && w.db.jobs[row].origin.agent in w.db.settings
  {
    var attempts := w.db.attempts[row];
    && attempts != [] && p.number == |attempts| && !w.history.acknowledged[row]
    && var last := attempts[|attempts| - 1];
    && last.status == Succeeded && last.decision == Some(Publish) && last.digest == Some(p.output) && last.lease == version
    && last.finishedAt.Some? && last.finishedAt.value <= p.now
    && last.pauseRevision == Some(w.db.settings[w.db.jobs[row].origin.agent].pauseRevision)
  }

  ghost predicate Publishable(w: World, row: nat, version: int, p: Printing)
    requires Aligned(w) && row < |w.db.jobs|
  {
    var job, o := w.db.jobs[row], w.db.jobs[row].origin;
    && version > 0 && p.now <= p.final && OpenAt(job, version, p.now) && OpenAt(job, version, p.final)
    && p.output.decision == Publish && p.output.kind == o.output && p.safe
    && MayRun(w.db, job, p.now) && InTime(w.db, o, w.db.settings[o.agent].policy, p.final) && Binds(w, row, version, p)
    && (if o.output == OutputReply then p.resultId !in w.db.replies else p.resultId !in w.db.posts)
  }

  /** The row a publication leaves. */
  function Done(job: Job, p: Printing): Job {
    job.(status := JobSucceeded, finishedAt := Some(p.now), leaseExpiresAt := None, published := Some(p.number),
         resultReply := if job.origin.output == OutputReply then Some(p.resultId) else None,
         resultPost := if job.origin.output == OutputReply then None else Some(p.resultId))
  }

  /** In a reachable state an unpublished job is published exactly when its lease is live at both readings, its source, its agent
      and every quota let it run, the output is safe and is what the last attempt recorded, and the result id is unused. */
  lemma PublicationDecides(w: World, row: nat, version: int, p: Printing)
    requires Inv(w) && row < |w.db.jobs| && w.db.jobs[row].status != JobSucceeded && Drawn(w.db, w.db.jobs[row], p)
    ensures var r := PublishJob(w.db, row, version, p);
            && (r.Commit? <==> Publishable(w, row, version, p))
            && (r.Commit? ==> r.result == Done(w.db.jobs[row], p))
  {
    hide Job.Valid, StandingOf, RowSound, Chains.Chained, MayRun, HasSource, InTime, Print, Authorised, StillAuthorised, Drawn, Binds, OpenAt;
    var job := w.db.jobs[row];
    RowFacts(w, row);
    RowsAligned(w, row);
    JobOrigin(job);
    StandingExactly(w.db, job.origin);
    LiveRuns(job, version, p.now);
    if job.status == Running && job.lease == version && HasSource(w.db, job.origin) && Ready(w.db, job.origin.agent)
       && p.output.decision == Publish && p.output.kind == job.origin.output {
      RunningFenced(job);
      AuthorisedExactly(w, row, version, p);
      StillExactly(w, row, version, p);
      if Binds(w, row, version, p) && OpenAt(job, version, p.now) {
        PrintsExactly(w, row, version, p);
      }
    }
    if Publishable(w, row, version, p) {
      RunsReady(w.db, job, p.now);
    }
  }

  lemma LiveRuns(job: Job, version: int, now: Instant)
    ensures OpenAt(job, version, now) ==> job.status == Running && job.lease == version
  {
  }

  lemma RunningFenced(job: Job)
    requires job.Valid() && job.status == Running
    ensures job.lease > 0
  {
  }

  lemma RunsReady(db: Db, job: Job, now: Instant)
    requires MayRun(db, job, now)
    ensures HasSource(db, job.origin) && Ready(db, job.origin.agent)
  {
    hide Entitled, HasSource, Ready;
  }

  lemma AuthorisedExactly(w: World, row: nat, version: int, p: Printing)
    requires Inv(w) && row < |w.db.jobs| && w.db.jobs[row].lease == version > 0
    requires HasSource(w.db, w.db.jobs[row].origin) && Ready(w.db, w.db.jobs[row].origin.agent)
    requires p.output.decision == Publish && p.output.kind == w.db.jobs[row].origin.output
    ensures var job, s := w.db.jobs[row], w.db.settings[w.db.jobs[row].origin.agent];
            1 <= p.number <= |w.db.attempts[row]| && Authorised(w.db, row, version, s, p)
            <==> OpenAt(job, version, p.now) && p.safe && MayRun(w.db, job, p.now) && Binds(w, row, version, p)
  {
    hide Job.Valid, PolicyAllows, ValidTransition, MayRun, HasSource, RowSound, Chains.Chained, Job.Leased, OpenAt, Attempt.Valid;
    var job, s := w.db.jobs[row], w.db.settings[w.db.jobs[row].origin.agent];
    RowFacts(w, row);
    PolicyExactly(w.db, job, p.now);
    NotGone(w.db, job);
    OpenIsLeased(job, version, p.now);
    if w.db.attempts[row] != [] {
      LastAttempt(w, row);
    }
    if 1 <= p.number <= |w.db.attempts[row]| {
      OlderLeases(w, row, p.number - 1);
      PrintingValid(job, w.db.attempts[row][p.number - 1], version, p);
    }
  }

  /** The last attempt started with the row's present availability exactly when no retry was acknowledged since. */
  lemma LastAttempt(w: World, row: nat)
    requires Inv(w) && row < |w.db.jobs| && w.db.attempts[row] != []
    ensures var last := w.db.attempts[row][|w.db.attempts[row]| - 1];
            && last.Valid() && last.job == row == w.db.jobs[row].origin.row && (last.finishedAt.Some? ==> last.startedAt <= last.finishedAt.value)
            && (last.finishedAt.Some? ==> (last.startedAt >= w.db.jobs[row].availableAt <==> !w.history.acknowledged[row]))
            && last.number == |w.db.attempts[row]| && (last.status != AttemptStatus.Reserved ==> last.finishedAt.Some?)
  {
    hide Job.Valid, Fenced, Sequenced, Concluded, Accounted, Chains.Chained, InvalidOutputs;
    Retries.Sound(w, row);
    var n := |w.db.attempts[row]|;
    assert Recorded(w.db.attempts[row][n - 1], row, n - 1);
  }

  lemma OlderLeases(w: World, row: nat, k: nat)
    requires Inv(w) && row < |w.db.jobs| && k < |w.db.attempts[row]|
    ensures w.db.attempts[row][k].Valid() && w.db.attempts[row][k].number == k + 1
    ensures (w.db.attempts[row][k].lease == w.db.jobs[row].lease ==> k == |w.db.attempts[row]| - 1)
  {
    hide Job.Valid, Attempt.Valid, AvailabilityTells, Sequenced, Concluded, Accounted, Chains.Chained, InvalidOutputs;
    Retries.Sound(w, row);
    var n := |w.db.attempts[row]|;
    assert Recorded(w.db.attempts[row][k], row, k);
    assert k < n - 1 ==> w.db.attempts[row][k].lease < w.db.attempts[row][n - 1].lease;
  }

  lemma PrintingValid(job: Job, attempt: Attempt, version: int, p: Printing)
    requires job.Valid() && job.lease == version && !job.RepostGone() && attempt.Valid() && p.number == attempt.number
    ensures ValidTransition(job, Printed(job, p), version, p.now, Some(attempt)) ==>
              && job.Leased(version, p.now) && attempt.job == job.origin.row && attempt.lease == version && attempt.status == Succeeded
              && attempt.startedAt >= job.availableAt && attempt.finishedAt.value <= p.now
    ensures job.Leased(version, p.now) && attempt.job == job.origin.row && attempt.lease == version && attempt.status == Succeeded
            && attempt.startedAt >= job.availableAt && attempt.finishedAt.value <= p.now ==>
              ValidTransition(job, Printed(job, p), version, p.now, Some(attempt))
    ensures Printed(job, p) == Done(job, p) || job.status != Running
  {
    hide ValidOrigin;
  }

  lemma StillExactly(w: World, row: nat, version: int, p: Printing)
    requires Inv(w) && row < |w.db.jobs| && HasSource(w.db, w.db.jobs[row].origin) && Ready(w.db, w.db.jobs[row].origin.agent)
    ensures var job, s := w.db.jobs[row], w.db.settings[w.db.jobs[row].origin.agent];
            version > 0 ==>
              (StillAuthorised(w.db, row, version, s, p)
               <==> p.now <= p.final && OpenAt(job, version, p.final) && InTime(w.db, job.origin, s.policy, p.final))
  {
    hide Job.Valid, HasSource, InTime, TimeAllowed, SourceCreated, RowSound, Chains.Chained, OpenAt, Job.Leased;
    var job := w.db.jobs[row];
    RowFacts(w, row);
    TimeExactly(w.db, job, w.db.settings[job.origin.agent].policy, p.final);
    if version > 0 {
      OpenIsLeased(job, version, p.final);
    }
  }

  lemma PrintsExactly(w: World, row: nat, version: int, p: Printing)
    requires Inv(w) && row < |w.db.jobs| && Drawn(w.db, w.db.jobs[row], p)
    requires HasSource(w.db, w.db.jobs[row].origin) && Ready(w.db, w.db.jobs[row].origin.agent) && Rooted(w.db.jobs, row)
    requires version > 0 && OpenAt(w.db.jobs[row], version, p.now) && Binds(w, row, version, p)
    ensures var job, s := w.db.jobs[row], w.db.settings[w.db.jobs[row].origin.agent];
            && job.origin.root < |w.db.jobs|
            && var r := Print(w.db, row, s, p);
            && (r.Some? <==> if job.origin.output == OutputReply then p.resultId !in w.db.replies else p.resultId !in w.db.posts)
            && (r.Some? ==> row < |r.value.jobs| && r.value.jobs[row] == Done(job, p))
  {
    hide Job.Valid, RowSound, Chains.Chained, Admit, CandidatesOf, ChildSource, Settings.Valid, Binds, OpenAt, Drawn, Selection.Proper;
    var db, job := w.db, w.db.jobs[row];
    var s := db.settings[job.origin.agent];
    RowFacts(w, row);
    NotGone(db, job);
    OutputPosted(job);
    var jobs := db.WithJob(row, Printed(job, p)).jobs;
    var line := Child(Printed(job, p), jobs[job.origin.root]);
    BoundRow(w, row, version, p);
    ChildrenProper(w, row, version, p);
    ChildrenDrawn(db, job, p);
    Selection.AdmitSucceeds(jobs, ChildSource(job, p), line, CandidatesOf(db, p.picks, job.origin.agent), p.admitted);
    AdmitFacts(jobs, ChildSource(job, p), line, CandidatesOf(db, p.picks, job.origin.agent), p.admitted);
    var rows := Admit(jobs, ChildSource(job, p), line, CandidatesOf(db, p.picks, job.origin.agent), p.admitted).value;
    assert rows[..|jobs|][row] == rows[row];
  }

  lemma OutputPosted(job: Job)
    requires job.Valid()
    ensures job.origin.output == OutputReply ==> job.origin.sourcePost.Some?
  {
  }

  lemma BoundRow(w: World, row: nat, version: int, p: Printing)
    requires Inv(w) && row < |w.db.jobs| && HasSource(w.db, w.db.jobs[row].origin) && Ready(w.db, w.db.jobs[row].origin.agent)
    requires version > 0 && OpenAt(w.db.jobs[row], version, p.now) && Binds(w, row, version, p)
    ensures Printed(w.db.jobs[row], p).Valid() && Printed(w.db.jobs[row], p) == Done(w.db.jobs[row], p)
  {
    hide Job.Valid, RowSound, Chains.Chained, HasSource, Attempt.Valid, Job.Leased, OpenAt;
    var job := w.db.jobs[row];
    RowFacts(w, row);
    NotGone(w.db, job);
    LiveRuns(job, version, p.now);
    OpenIsLeased(job, version, p.now);
    LastAttempt(w, row);
    PrintingValid(job, w.db.attempts[row][p.number - 1], version, p);
    TransitionValid(job, Printed(job, p), version, p.now, Some(w.db.attempts[row][p.number - 1]));
  }

  lemma TransitionValid(before: Job, after: Job, version: int, now: Instant, attempt: Option<Attempt>)
    requires ValidTransition(before, after, version, now, attempt)
    ensures after.Valid()
  {
    hide Job.Valid;
  }

  lemma ChildrenProper(w: World, row: nat, version: int, p: Printing)
    requires Inv(w) && row < |w.db.jobs| && Rooted(w.db.jobs, row) && Drawn(w.db, w.db.jobs[row], p)
    requires Printed(w.db.jobs[row], p).Valid()
    ensures var job := w.db.jobs[row];
            var jobs := w.db.WithJob(row, Printed(job, p)).jobs;
            && Selection.Proper(ChildSource(job, p), Child(Printed(job, p), jobs[job.origin.root]))
            && jobs[job.origin.root].origin.row < |jobs|
  {
    hide Job.Valid, RowSound, Chains.WithinLimit, PickDrawn, Printed;
    var job := w.db.jobs[row];
    PrintedOrigin(job, p);
    RowFacts(w, job.origin.root);
    AgentNamed(w.db.jobs[job.origin.root]);
    RowFacts(w, row);
    AgentNamed(job);
    assert Chains.Linked(w.db.jobs, row);
  }

  lemma AgentNamed(job: Job)
    requires job.Valid()
    ensures job.origin.agent != 0 && (job.origin.output == OutputReply ==> job.origin.sourcePost.Some?)
    ensures job.origin.depth >= 0 && (job.origin.depth == 0 <==> job.origin.root == job.origin.row)
  {
  }

  lemma ChildrenDrawn(db: Db, job: Job, p: Printing)
    requires Drawn(db, job, p)
    ensures forall c :: c in CandidatesOf(db, p.picks, job.origin.agent) ==> Selection.WellDrawn(c, ChildSource(job, p))
  {
    hide CandidatesOf, Settings.Valid;
    forall c | c in CandidatesOf(db, p.picks, job.origin.agent) ensures Selection.WellDrawn(c, ChildSource(job, p)) {
      CandidatesExactly(db, p.picks, job.origin.agent, c);
      var i :| 0 <= i < |p.picks| && TakesTurn(db, p.picks[i], job.origin.agent, c);
      assert PickDrawn(db, p.picks[i]);
    }
  }
}
