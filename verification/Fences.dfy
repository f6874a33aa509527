/** Every committed job update is lawful, stale fences never write, and no cleanup or claim refuses a row its query selected. */
module Fences {
  import opened Basics
  import opened Policies
  import opened Attempts
  import opened Jobs
  import opened Eligibility
  import opened Tables
  import opened Transactions
  import opened Operations
  import opened Protocol
  import opened Effects
  import opened Growth
  import opened Changes
  import opened Invariants

  /** The clock readings a transaction's job updates may be stamped with. */
  function ReadingsOf(e: Event): set<Instant> {
    match e
    case DoClaim(_, _, later) => {later}
    case DoRenew(_, _, now) => {now}
    case DoReserve(_, _, _, at) => {at.now, at.counted, at.final}
    case DoComplete(_, _, _, _, now) => {now}
    case DoDeny(_, _, _, now) => {now}
    case DoRetry(_, now) => {now}
    case DoPublish(_, _, p) => {p.now}
    case DoExpire(_, _, now) => {now}
    case DoRemovePost(_, _, now) => {now}
    case DoRemoveReply(_, _, now) => {now}
    case DoRemoveRepost(_, _, _, now) => {now}
    case _ => {}
  }

  function AttemptOf(db: Db, e: Event): Option<Attempt>
    requires db.Shaped()
  {
    if e.DoPublish? && e.row < |db.jobs| && 1 <= e.printing.number <= |db.attempts[e.row]|
    then Some(db.attempts[e.row][e.printing.number - 1]) else None
  }

  function LostOf(e: Event): Option<Id> {
    if e.DoRemoveRepost? then Some(e.repost) else None
  }

  /** A row is as it was, or changed by one lawful update at one of the event's own readings. */
  ghost predicate LawfulRow(before: Job, after: Job, e: Event, attempt: Option<Attempt>) {
    || after == before
    || exists now, lost :: now in ReadingsOf(e) && lost in {None, LostOf(e)} && Lawful(before, after, now, attempt, lost)
  }

  /** The jobs differ in at most one row, and there lawfully, at a reading of the event. */
  ghost predicate LawfulAt(before: Db, after: Db, row: nat, e: Event, attempt: Option<Attempt>) {
    after.jobs == before.jobs
    || (row < |before.jobs| <= |after.jobs| && LawfulRow(before.jobs[row], after.jobs[row], e, attempt)
        && forall i :: 0 <= i < |before.jobs| && i != row ==> after.jobs[i] == before.jobs[i])
  }

  lemma PutLawful(before: Db, row: nat, job: Job, e: Event, now: Instant, attempt: Option<Attempt>)
    requires row < |before.jobs| && now in ReadingsOf(e) && LostOf(e).None?
    requires ValidTransition(before.jobs[row], job, before.jobs[row].lease, now, attempt)
             || ValidSourceInvalidation(before.jobs[row], job, before.jobs[row].lease, now)
    ensures LawfulAt(before, before.WithJob(row, job), row, e, attempt)
  {
    hide ValidTransition, ValidSourceInvalidation;
    assert Lawful(before.jobs[row], job, now, attempt, LostOf(e));
  }

  lemma MaybePut(before: Db, row: nat, job: Option<Job>, e: Event, now: Instant)
    requires row < |before.jobs| && now in ReadingsOf(e) && LostOf(e).None?
    requires job.Some? ==>
               || ValidTransition(before.jobs[row], job.value, before.jobs[row].lease, now, None)
               || ValidSourceInvalidation(before.jobs[row], job.value, before.jobs[row].lease, now)
    ensures job.Some? ==> LawfulAt(before, before.WithJob(row, job.value), row, e, None)
  {
    hide ValidTransition, ValidSourceInvalidation, LawfulAt;
    if job.Some? {
      PutLawful(before, row, job.value, e, now, None);
    }
  }

  lemma ClaimLawful(db: Db, e: Event)
    requires db.Shaped() && (e.DoClaim? || e.DoRenew?)
    ensures LawfulAt(db, DbAfter(db, e), e.row, e, None)
  {
    hide ValidTransition, ValidSourceInvalidation, LawfulRow;
    if e.row < |db.jobs| {
      var job := db.jobs[e.row];
      if e.DoClaim? {
        MaybePut(db, e.row, ClaimJob(job, e.later), e, e.later);
      } else {
        var after := job.(leaseExpiresAt := Some(e.now + LEASE));
        if ValidTransition(job, after, job.lease, e.now, None) {
          PutLawful(db, e.row, after, e, e.now, None);
        }
      }
    }
  }

  lemma FinishLawful(db: Db, row: nat, e: Event, now: Instant)
    requires row < |db.jobs| && now in ReadingsOf(e) && LostOf(e).None?
    ensures forall status, reason, available ::
              var r := Finish(db.jobs[row], status, reason, now, available); r.Some? ==> LawfulAt(db, db.WithJob(row, r.value), row, e, None)
    ensures var r := SkipExpired(db.jobs[row], now); r.Some? ==> LawfulAt(db, db.WithJob(row, r.value), row, e, None)
    ensures var r := Invalidate(db.jobs[row], db.jobs[row].lease, now); r.Some? ==> LawfulAt(db, db.WithJob(row, r.value), row, e, None)
  {
    hide ValidTransition, ValidSourceInvalidation, LawfulAt, Finish, SkipExpired, Invalidate;
    forall status, reason, available
      ensures var r := Finish(db.jobs[row], status, reason, now, available); r.Some? ==> LawfulAt(db, db.WithJob(row, r.value), row, e, None)
    {
      MaybePut(db, row, Finish(db.jobs[row], status, reason, now, available), e, now);
    }
    MaybePut(db, row, SkipExpired(db.jobs[row], now), e, now);
    MaybePut(db, row, Invalidate(db.jobs[row], db.jobs[row].lease, now), e, now);
  }

  lemma ReserveLawful(db: Db, e: Event)
    requires db.Shaped() && e.DoReserve?
    ensures LawfulAt(db, DbAfter(db, e), e.row, e, None)
  {
    hide LawfulAt, Finish, SkipExpired, PolicyAllows, StandingOf, TimeAllowed, Charge, InvalidOutputs, Attempt.Valid, NewAttempt, Job.Leased,
         WithReservation;
    SameLawful(db, e);
    ReservedLawful(db, e);
    if e.row < |db.jobs| {
      FinishLawful(db, e.row, e, e.at.now);
      FinishLawful(db, e.row, e, e.at.counted);
      FinishLawful(db, e.row, e, e.at.final);
    }
  }

  lemma ReservedLawful(db: Db, e: Event)
    ensures forall row: nat, attempt: Attempt, none: Option<Attempt> ::
              row < |db.attempts| ==> LawfulAt(db, WithReservation(db, row, attempt), e.row, e, none)
    requires e.DoReserve?
  {
  }

  lemma CompleteLawful(db: Db, e: Event)
    requires db.Shaped() && e.DoComplete?
    ensures LawfulAt(db, DbAfter(db, e), e.row, e, None)
  {
    hide LawfulAt, Finish, SkipExpired, Invalidate, Judge, Job.Leased;
    SameLawful(db, e);
    if e.row < |db.jobs| {
      FinishLawful(db, e.row, e, e.now);
    }
  }

  lemma DenyLawful(db: Db, e: Event)
    requires db.Shaped() && e.DoDeny?
    ensures LawfulAt(db, DbAfter(db, e), e.row, e, None)
  {
    hide LawfulAt, Finish, SkipExpired, Invalidate;
    SameLawful(db, e);
    if e.row < |db.jobs| {
      FinishLawful(db, e.row, e, e.now);
    }
  }

  lemma RetryLawful(db: Db, e: Event)
    requires db.Shaped() && e.DoRetry?
    ensures LawfulAt(db, DbAfter(db, e), e.row, e, None)
  {
    hide LawfulRow, LawfulAt, ValidTransition, PolicyAllows, StandingOf, Reopenable, Reopened;
    var r := Retry(db, e.row, e.now);
    if r.Commit? {
      PutLawful(db, e.row, r.db.jobs[e.row], e, e.now, None);
    } else {
      SameLawful(db, e);
    }
  }

  lemma SameLawful(db: Db, e: Event)
    ensures forall row, attempt :: LawfulAt(db, db, row, e, attempt)
  {
  }

  /** The rows of an ending batch that changed were active, and are no longer. */
  ghost predicate Ended(before: Db, after: Db, i: nat, now: Instant)
    requires i < |before.jobs| == |after.jobs|
  {
    after.jobs[i] == before.jobs[i]
    || (!after.jobs[i].Active()
        && (ValidTransition(before.jobs[i], after.jobs[i], before.jobs[i].lease, now, None)
            || ValidSourceInvalidation(before.jobs[i], after.jobs[i], before.jobs[i].lease, now)))
  }

  lemma {:induction false} ExpireLawful(db: Db, rows: seq<nat>, cutoff: Instant, now: Instant)
    requires Expire(db, rows, cutoff, now).Commit?
    ensures var after := Expire(db, rows, cutoff, now).db;
            |after.jobs| == |db.jobs| && forall i :: 0 <= i < |db.jobs| ==> Ended(db, after, i, now)
    decreases rows
  {
    hide ValidTransition, ValidSourceInvalidation;
    if rows != [] {
      ExpireLawful(db, rows[..|rows| - 1], cutoff, now);
      var done := Expire(db, rows[..|rows| - 1], cutoff, now).db;
      forall i | 0 <= i < |db.jobs| ensures Ended(db, Expire(db, rows, cutoff, now).db, i, now) {
        assert Ended(db, done, i, now);
      }
    }
  }

  lemma {:induction false} CancelLawful(db: Db, post: Id, rows: seq<nat>, now: Instant)
    requires CancelRemoved(db, post, rows, now).Commit?
    ensures var after := CancelRemoved(db, post, rows, now).db;
            |after.jobs| == |db.jobs| && forall i :: 0 <= i < |db.jobs| ==> Ended(db, after, i, now)
    decreases rows
  {
    hide ValidTransition, ValidSourceInvalidation, SourceGone;
    if rows != [] {
      CancelLawful(db, post, rows[..|rows| - 1], now);
      var done := CancelRemoved(db, post, rows[..|rows| - 1], now).db;
      forall i | 0 <= i < |db.jobs| ensures Ended(db, CancelRemoved(db, post, rows, now).db, i, now) {
        assert Ended(db, done, i, now);
      }
    }
  }

  /** Whatever event happens, every job row is as it was or was moved by one lawful update of that event. */
  lemma EveryUpdateLawful(w: World, e: Event, row: nat)
    requires Inv(w) && Honest(w, e) && row < |w.db.jobs|
    ensures row < |DbAfter(w.db, e).jobs|
    ensures LawfulRow(w.db.jobs[row], DbAfter(w.db, e).jobs[row], e, AttemptOf(w.db, e))
  {
    hide RowSound, Chains.Chained, Honest, Explains, LawfulRow, Claim, Renew, Reserve, Complete, Deny, Retry, PublishJob, Settle, RecoverOne,
         Expire, RemovePost, RemoveReply, RemoveRepost, Enable, SetPolicy, ScheduleAgent, Act, Continue;
    SameRow(w.db.jobs[row], e, AttemptOf(w.db, e));
    match e
    case DoClaim(_, _, _) => ClaimLawful(w.db, e);
    case DoRenew(_, _, _) => ClaimLawful(w.db, e);
    case DoReserve(_, _, _, _) => ReserveLawful(w.db, e);
    case DoComplete(_, _, _, _, _) => CompleteLawful(w.db, e);
    case DoDeny(_, _, _, _) => DenyLawful(w.db, e);
    case DoRetry(_, _) => RetryLawful(w.db, e);
    case DoExpire(_, _, _) => BatchLawful(w.db, e, row);
    case DoRemovePost(_, _, _) => BatchLawful(w.db, e, row);
    case DoRemoveReply(_, _, _) => BatchLawful(w.db, e, row);
    case DoRemoveRepost(_, _, _, _) => BatchLawful(w.db, e, row);
    case DoPublish(_, _, _) => PublishLawful(w, e, row);
    case _ => OthersKeepJobs(w, e, row);
  }

  lemma SameRow(job: Job, e: Event, attempt: Option<Attempt>)
    ensures LawfulRow(job, job, e, attempt)
  {
  }

  lemma BatchLawful(db: Db, e: Event, row: nat)
    requires db.Shaped() && (e.DoExpire? || e.DoRemovePost? || e.DoRemoveReply? || e.DoRemoveRepost?) && row < |db.jobs|
    ensures row < |DbAfter(db, e).jobs| && LawfulRow(db.jobs[row], DbAfter(db, e).jobs[row], e, None)
  {
    hide ValidTransition, ValidSourceInvalidation, Expire, CancelRemoved, Cleared, LawfulRow, Ended;
    SameRow(db.jobs[row], e, None);
    match e
    case DoExpire(rows, cutoff, now) =>
      if Expire(db, rows, cutoff, now).Commit? {
        ExpireLawful(db, rows, cutoff, now);
        EndedLawful(db, db, DbAfter(db, e), row, e, None);
      }
    case DoRemovePost(post, rows, now) =>
      if RemovePost(db, post, rows, now).Commit? {
        var marked := db.(posts := db.posts[post := db.posts[post].(deleted := true)]);
        CancelLawful(marked, post, rows, now);
        EndedLawful(db, marked, DbAfter(db, e), row, e, None);
      }
    case DoRemoveReply(reply, rows, now) =>
      if RemoveReply(db, reply, rows, now).Commit? {
        var marked := db.(replies := db.replies[reply := db.replies[reply].(deleted := true)]);
        CancelLawful(marked, db.replies[reply].post, rows, now);
        EndedLawful(db, marked, DbAfter(db, e), row, e, None);
      }
    case DoRemoveRepost(repost, post, rows, now) =>
      if RemoveRepost(db, repost, post, rows, now).Commit? {
        ClearedRow(db, repost, row);
        CancelLawful(Unreposted(db, repost, post), post, rows, now);
        EndedLawful(db, Unreposted(db, repost, post), DbAfter(db, e), row, e, if Reposted(db, repost, post) then Some(repost) else None);
      }
  }

  lemma ClearedRow(db: Db, repost: Id, row: nat)
    requires row < |db.jobs|
    ensures |Cleared(db, repost).jobs| == |db.jobs| && Cleared(db, repost).jobs[row] == Detach(db.jobs[row], repost)
  {
  }

  /** A row ended after at most losing its repost reference moved lawfully. */
  lemma EndedLawful(db: Db, seen: Db, after: Db, row: nat, e: Event, lost: Option<Id>)
    requires row < |db.jobs| == |seen.jobs| == |after.jobs| && lost in {None, LostOf(e)}
    requires e.DoExpire? || e.DoRemovePost? || e.DoRemoveReply? || e.DoRemoveRepost?
    requires Ended(seen, after, row, e.now)
    requires seen.jobs[row] == if lost.Some? then Detach(db.jobs[row], lost.value) else db.jobs[row]
    ensures LawfulRow(db.jobs[row], after.jobs[row], e, None)
  {
    hide ValidTransition, ValidSourceInvalidation;
    assert e.now in ReadingsOf(e);
    assert Lawful(db.jobs[row], after.jobs[row], e.now, None, lost);
  }

  lemma PublishLawful(w: World, e: Event, row: nat)
    requires Inv(w) && e.DoPublish? && row < |w.db.jobs|
    ensures row < |DbAfter(w.db, e).jobs| && LawfulRow(w.db.jobs[row], DbAfter(w.db, e).jobs[row], e, AttemptOf(w.db, e))
  {
    hide RowSound, Chains.Chained, PublishJob, Grew, Around, Inserted, PublicationChecked, LawfulRow, AttemptOf;
    SameRow(w.db.jobs[row], e, AttemptOf(w.db, e));
    if e.row < |w.db.jobs| {
      RowsAligned(w, e.row);
    }
    PublishEffect(w.db, e.row, e.version, e.printing);
    if PublishJob(w.db, e.row, e.version, e.printing).Commit? && w.db.jobs[e.row].status != JobSucceeded {
      GrewRows(w.db.WithJob(e.row, Printed(w.db.jobs[e.row], e.printing)), DbAfter(w.db, e), Some(w.db.jobs[e.row].origin.root));
      PrintedLawful(w.db, e);
    }
  }

  lemma PrintedLawful(db: Db, e: Event)
    requires db.Shaped() && e.DoPublish? && e.row < |db.jobs| && PublicationChecked(db, e.row, e.version, e.printing)
    ensures LawfulRow(db.jobs[e.row], Printed(db.jobs[e.row], e.printing), e, AttemptOf(db, e))
  {
    hide ValidTransition, ValidSourceInvalidation, SourceValid;
    assert e.printing.now in ReadingsOf(e);
    assert Lawful(db.jobs[e.row], Printed(db.jobs[e.row], e.printing), e.printing.now, AttemptOf(db, e), LostOf(e));
  }

  lemma OthersKeepJobs(w: World, e: Event, row: nat)
    requires Inv(w) && Honest(w, e) && row < |w.db.jobs|
    requires e.DoCall? || e.DoSettle? || e.DoRecover? || e.DoEnable? || e.DoSetPolicy? || e.DoSchedule? || e.DoAct? || e.DoContinue?
    ensures row < |DbAfter(w.db, e).jobs| && DbAfter(w.db, e).jobs[row] == w.db.jobs[row]
  {
    hide RowSound, Chains.Chained, ScheduleAgent, Act, Continue, Settle, RecoverOne, Enable, SetPolicy;
    match e
    case DoCall(_, _, _) =>
    case DoSettle(reservation, outcome, requestId, now) => SettleKeepsJobs(w.db, reservation, outcome, requestId, now);
    case DoRecover(r, number, now) => RecoverKeepsJobs(w.db, r, number, now);
    case DoSetPolicy(agent, policy, now) => SetPolicyKeepsJobs(w.db, agent, policy, now);
    case DoEnable(agents, single, enabled, now) => EnableKeepsJobs(w.db, agents, single, enabled, now);
    case _ => GrowthKeepsJobs(w, e, row);
  }

  lemma GrowthKeepsJobs(w: World, e: Event, row: nat)
    requires Inv(w) && row < |w.db.jobs| && (e.DoSchedule? || e.DoAct? || e.DoContinue?)
    ensures row < |DbAfter(w.db, e).jobs| && DbAfter(w.db, e).jobs[row] == w.db.jobs[row]
  {
    hide RowSound, Chains.Chained, DbAfter, HistoryAfter, Grew, Around, Grown;
    if e.DoContinue? && e.row < |w.db.jobs| {
      RowsAligned(w, e.row);
    }
    var c := ExplainGrowth(w, e);
    OnlyExtends(w, e, c);
    GrewRows(w.db, DbAfter(w.db, e), c.root);
  }

  lemma OnlyExtends(w: World, e: Event, c: Change)
    requires w.db.Shaped() && Explains(w, Apply(w, e), c) && Causes(w, e, c) && (e.DoSchedule? || e.DoAct? || e.DoContinue?)
    requires c.Extending?
    ensures Grew(w.db, DbAfter(w.db, e), c.root)
  {
    hide Grew, Around, DbAfter, HistoryAfter;
  }

  lemma SettleKeepsJobs(db: Db, reservation: Attempt, outcome: Outcome, requestId: Option<nat>, now: Instant)
    requires db.Shaped()
    ensures Kept(db, Settle(db, reservation, outcome, requestId, now)).jobs == db.jobs
  {
    hide Attempt.Valid, ValidAttemptTransition, ValidOutcome, Normalise, Settled, SameObservation;
  }

  lemma RecoverKeepsJobs(db: Db, row: nat, number: int, now: Instant)
    requires db.Shaped()
    ensures Kept(db, RecoverOne(db, row, number, now)).jobs == db.jobs
  {
    hide Attempt.Valid, ValidAttemptTransition;
  }

  lemma SetPolicyKeepsJobs(db: Db, agent: Id, policy: Policy, now: Instant)
    ensures Kept(db, SetPolicy(db, agent, policy, now)).jobs == db.jobs
  {
    hide Policy.Valid, Settings.Valid;
  }

  lemma {:induction false} EnableKeepsJobs(db: Db, agents: seq<Id>, single: bool, enabled: bool, now: Instant)
    ensures Kept(db, Enable(db, agents, single, enabled, now)).jobs == db.jobs
    decreases agents
  {
    hide Settings.Valid;
    if agents != [] {
      EnableKeepsJobs(db, agents[..|agents| - 1], single, enabled, now);
    }
  }

  /** What lawfulness means for a reader: leases never fall, identity and expiry never change (a repost reference may be
      lost), a finished job moves only if it failed, and then only back to waiting with its lease kept. */
  lemma LawfulMeans(before: Job, after: Job, e: Event, attempt: Option<Attempt>)
    requires LawfulRow(before, after, e, attempt) && before.Valid()
    ensures after.lease >= before.lease && SameRank(after.origin, before.origin) && after.origin.expiresAt == before.origin.expiresAt
    ensures before.Terminal() && after.(origin := before.origin) != before ==>
              before.status == JobFailed && after.status == RetryWait && after.lease == before.lease
    ensures after.lease > before.lease ==> after.status == Running && after.lease == before.lease + 1
    ensures after.status == JobSucceeded && before.status != JobSucceeded ==>
              && attempt.Some? && attempt.value.status == Succeeded && attempt.value.lease == before.lease == after.lease
              && before.status == Running
  {
    hide ValidOrigin;
    if after != before {
      var now, lost :| now in ReadingsOf(e) && lost in {None, LostOf(e)} && Lawful(before, after, now, attempt, lost);
    }
  }

  /** A worker whose lease version is no longer the job's own never writes anything. */
  lemma StaleNeverWrites(db: Db, e: Event)
    requires db.Shaped() && (e.DoRenew? || e.DoReserve? || e.DoComplete? || e.DoDeny? || e.DoPublish?)
    requires e.row < |db.jobs| ==> db.jobs[e.row].lease != e.version
    ensures DbAfter(db, e) == db
  {
    hide Retain, Judge, Finish, SkipExpired, Invalidate, StandingOf, PolicyAllows, PublishLive;
  }

  // ---- Selected rows are never refused ----

  /** A due row is claimed, or ended, exactly unless the clock went back between the two readings or the lease is at its maximum. */
  lemma ClaimRefusedExactly(job: Job, now: Instant, later: Instant)
    requires job.Valid() && Due(job, now)
    ensures ClaimJob(job, later).Some? <==>
              || later >= job.origin.expiresAt
              || (job.RepostGone() && later >= job.origin.createdAt)
              || (!job.RepostGone() && job.lease < 0x7fff_ffff_ffff_ffff && later >= job.availableAt
                  && (job.status == Running ==> later >= job.leaseExpiresAt.value))
  {
    hide ValidOrigin;
    OriginFacts(job);
  }

  lemma OriginFacts(job: Job)
    requires job.Valid()
    ensures job.RepostGone() ==> job.origin.sourcePost.Some?
  {
  }

  lemma ClaimNeverRefuses(db: Db, row: nat, now: Instant, later: Instant)
    requires row < |db.jobs| && db.jobs[row].Valid() && now <= later && db.jobs[row].lease < 0x7fff_ffff_ffff_ffff
    ensures Claim(db, row, now, later).Commit?
  {
    hide ClaimJob, Job.Valid;
    if Due(db.jobs[row], now) {
      ClaimRefusedExactly(db.jobs[row], now, later);
      DueTimes(db.jobs[row], now);
    }
  }

  lemma DueTimes(job: Job, now: Instant)
    requires job.Valid() && Due(job, now)
    ensures job.availableAt <= now && job.origin.createdAt <= now && (job.status == Running ==> job.leaseExpiresAt.value <= now)
  {
    hide ValidOrigin;
  }

  lemma ExpiredEnds(job: Job, now: Instant)
    requires job.Valid() && job.Active()
    ensures SkipExpired(job, now).Some? <==> now >= job.origin.expiresAt
    ensures now >= job.origin.expiresAt ==> SkipExpired(job, now).value.status == Skipped && SkipExpired(job, now).value.Valid()
  {
    hide ValidOrigin;
  }

  /** Expiry of a batch never fails at any clock, and ends every selected row that is really past its expiry. */
  lemma {:induction false} ExpiryNeverRefuses(db: Db, rows: seq<nat>, cutoff: Instant, now: Instant)
    requires forall i :: 0 <= i < |db.jobs| ==> db.jobs[i].Valid()
    ensures Expire(db, rows, cutoff, now).Commit?
    ensures var after := Expire(db, rows, cutoff, now).db;
            && |after.jobs| == |db.jobs| && (forall i :: 0 <= i < |after.jobs| ==> after.jobs[i].Valid())
            && (forall i :: 0 <= i < |after.jobs| ==> after.jobs[i] == db.jobs[i] || after.jobs[i].status == Skipped)
            && forall r :: r in rows && Expirable(db, r, cutoff) && now >= db.jobs[r].origin.expiresAt ==> after.jobs[r].status == Skipped
    decreases rows
  {
    hide Job.Valid, SkipExpired;
    if rows != [] {
      var row, front := rows[|rows| - 1], rows[..|rows| - 1];
      ExpiryNeverRefuses(db, front, cutoff, now);
      var done := Expire(db, front, cutoff, now).db;
      if row < |done.jobs| && done.jobs[row].Active() {
        ExpiredEnds(done.jobs[row], now);
      }
      var after := Expire(db, rows, cutoff, now).db;
      forall r | r in rows && Expirable(db, r, cutoff) && now >= db.jobs[r].origin.expiresAt ensures after.jobs[r].status == Skipped {
        if r != row {
          assert r in front;
        }
      }
    }
  }

  lemma InvalidationEnds(job: Job, now: Instant)
    requires job.Valid() && job.Active() && job.origin.sourcePost.Some?
    ensures Invalidate(job, job.lease, now).Some? <==> now >= job.origin.createdAt
    ensures now >= job.origin.createdAt ==>
              !Invalidate(job, job.lease, now).value.Active() && Invalidate(job, job.lease, now).value.Valid()
  {
    hide ValidOrigin;
  }

  /** Source cleanup never fails when no job was created later than its clock, and ends every selected row. */
  lemma {:induction false} CleanupNeverRefuses(db: Db, post: Id, rows: seq<nat>, now: Instant)
    requires forall i :: 0 <= i < |db.jobs| ==> db.jobs[i].Valid() && db.jobs[i].origin.createdAt <= now
    ensures CancelRemoved(db, post, rows, now).Commit?
    ensures var after := CancelRemoved(db, post, rows, now).db;
            && |after.jobs| == |db.jobs| && after.posts == db.posts && after.replies == db.replies
            && (forall i :: 0 <= i < |after.jobs| ==> after.jobs[i].Valid() && after.jobs[i].origin == db.jobs[i].origin)
            && (forall i :: 0 <= i < |after.jobs| ==> after.jobs[i] == db.jobs[i] || !after.jobs[i].Active())
            && forall r :: r in rows && Removable(db, r, post) ==> !after.jobs[r].Active()
    decreases rows
  {
    hide Job.Valid, Invalidate;
    if rows != [] {
      var row, front := rows[|rows| - 1], rows[..|rows| - 1];
      CleanupNeverRefuses(db, post, front, now);
      var done := CancelRemoved(db, post, front, now).db;
      if Removable(done, row, post) {
        InvalidationEnds(done.jobs[row], now);
      }
      assert rows == front + [row];
    }
  }
}
