/** What the transactions leave alone: accounts, reposts and settings. */
module Frames {
  import opened Basics
  import opened Policies
  import opened Attempts
  import opened Jobs
  import opened Eligibility
  import opened Tables
  import opened Transactions
  import opened Operations
  import opened Protocol
  import Admission
  import Schedule

  predicate SameRest(before: Db, after: Db) {
    after.reposts == before.reposts && after.settings == before.settings && after.accounts == before.accounts
  }

  lemma PutFrame<R>(db: Db, row: nat, job: Option<Job>, result: R)
    requires row < |db.jobs|
    ensures SameRest(db, Kept(db, Put(db, row, job, result)))
  {
  }

  lemma RestRefl(db: Db)
    ensures SameRest(db, db)
  {
  }

  lemma {:induction false} ExpireFrame(db: Db, rows: seq<nat>, cutoff: Instant, now: Instant)
    ensures SameRest(db, Kept(db, Expire(db, rows, cutoff, now)))
    decreases rows
  {
    hide SkipExpired;
    if rows != [] {
      ExpireFrame(db, rows[..|rows| - 1], cutoff, now);
    }
  }

  lemma {:induction false} CancelFrame(db: Db, post: Id, rows: seq<nat>, now: Instant)
    ensures SameRest(db, Kept(db, CancelRemoved(db, post, rows, now)))
    decreases rows
  {
    hide Invalidate, SourceGone;
    if rows != [] {
      CancelFrame(db, post, rows[..|rows| - 1], now);
    }
  }

  lemma SpendFrame(db: Db, row: nat, version: int, s: Settings, prompt: nat, at: Readings)
    requires db.Shaped() && row < |db.jobs|
    ensures SameRest(db, Kept(db, Spend(db, row, version, s, prompt, at)))
  {
    hide SkipExpired, Finish, PolicyAllows, TimeAllowed, SourceCreated, Charge, Attempt.Valid, NewAttempt, Job.Leased, Put, SameRest;
    RestRefl(db);
    var job := db.jobs[row];
    PutFrame(db, row, SkipExpired(job, at.counted), Admitted(None, StaleTrigger));
    PutFrame(db, row, SkipExpired(job, at.final), Admitted(None, StaleTrigger));
    PutFrame(db, row, Finish(job, Skipped, PolicyDenied, at.final, at.final), Admitted(None, PolicyDenied));
    PutFrame(db, row, Finish(job, Skipped, BudgetExhausted, at.final, at.final), Admitted(None, BudgetExhausted));
    ReservationFrame(db, row, NewAttempt(db, row, version, s, prompt, at));
  }

  lemma ReservationFrame(db: Db, row: nat, attempt: Attempt)
    requires row < |db.attempts|
    ensures SameRest(db, WithReservation(db, row, attempt))
  {
    hide Attempt.Valid;
  }

  lemma RetainFrame(db: Db, row: nat, version: int, s: Settings, prompt: nat, at: Readings)
    requires db.Shaped() && row < |db.jobs|
    ensures SameRest(db, Kept(db, Retain(db, row, version, s, prompt, at)))
  {
    hide SkipExpired, Finish, InvalidOutputs, Spend;
    SpendFrame(db, row, version, s, prompt, at);
  }

  lemma ReserveFrame(db: Db, row: nat, version: int, prompt: Option<nat>, at: Readings)
    requires db.Shaped()
    ensures SameRest(db, Kept(db, Reserve(db, row, version, prompt, at)))
  {
    hide SkipExpired, Finish, PolicyAllows, StandingOf, Retain, Job.Leased;
    if row < |db.jobs| && prompt.Some? && StandingOf(db, db.jobs[row].origin).Granted? {
      RetainFrame(db, row, version, StandingOf(db, db.jobs[row].origin).settings, prompt.value, at);
    }
  }

  /** Work on a single row. */
  lemma WorkFrame(db: Db, e: Event)
    requires db.Shaped() && (e.DoClaim? || e.DoRenew? || e.DoReserve? || e.DoComplete? || e.DoDeny? || e.DoRetry?)
    ensures SameRest(db, DbAfter(db, e))
  {
    hide DbAfter;
    WorkDb(db, e);
    if e.DoReserve? {
      ReserveFrame(db, e.row, e.version, e.prompt, e.at);
    } else if e.DoClaim? || e.DoRenew? {
      LeaseFrame(db, e);
    } else if e.DoComplete? {
      CompleteFrame(db, e.row, e.version, e.number, e.jitter, e.now);
    } else {
      AnswerFrame(db, e);
    }
  }

  lemma WorkDb(db: Db, e: Event)
    requires db.Shaped()
    ensures match e
            case DoClaim(row, now, later) => DbAfter(db, e) == Kept(db, Claim(db, row, now, later))
            case DoRenew(row, version, now) => DbAfter(db, e) == Kept(db, Renew(db, row, version, now))
            case DoReserve(row, version, prompt, at) => DbAfter(db, e) == Kept(db, Reserve(db, row, version, prompt, at))
            case DoSettle(reservation, outcome, requestId, now) => DbAfter(db, e) == Kept(db, Settle(db, reservation, outcome, requestId, now))
            case DoRecover(row, number, now) => DbAfter(db, e) == Kept(db, RecoverOne(db, row, number, now))
            case DoComplete(row, version, number, jitter, now) => DbAfter(db, e) == Kept(db, Complete(db, row, version, number, jitter, now))
            case DoDeny(row, version, denial, now) => DbAfter(db, e) == Kept(db, Deny(db, row, version, denial, now))
            case DoRetry(row, now) => DbAfter(db, e) == Kept(db, Retry(db, row, now))
            case DoSetPolicy(agent, policy, now) => DbAfter(db, e) == Kept(db, SetPolicy(db, agent, policy, now))
            case DoSchedule(agent, now, draw, uuid) => DbAfter(db, e) == Kept(db, ScheduleAgent(db, agent, now, draw, uuid))
            case DoAct(kind, action, actor, target, content, written, picks, now) =>
              DbAfter(db, e) == Kept(db, Act(db, kind, action, actor, target, content, written, picks, now))
            case DoRemoveRepost(repost, post, rows, now) => DbAfter(db, e) == Kept(db, RemoveRepost(db, repost, post, rows, now))
            case DoContinue(row, picks, now) => DbAfter(db, e) == Kept(db, Continue(db, row, picks, now))
            case DoCall(_, _, _) => DbAfter(db, e) == db
            case _ => true
  {
    hide Reserve, Complete, ScheduleAgent, SetPolicy, Claim, Renew, Settle, RecoverOne, Deny, Retry, Act, RemoveRepost, Continue, Kept,
         PublishJob, Expire, RemovePost, RemoveReply, Enable;
  }

  lemma LeaseFrame(db: Db, e: Event)
    requires db.Shaped() && (e.DoClaim? || e.DoRenew?)
    ensures SameRest(db, DbAfter(db, e))
  {
    hide DbAfter, ClaimJob, ValidTransition, Job.Leased;
    WorkDb(db, e);
  }

  lemma AnswerFrame(db: Db, e: Event)
    requires db.Shaped() && (e.DoDeny? || e.DoRetry?)
    ensures SameRest(db, DbAfter(db, e))
  {
    hide DbAfter, Deny, Retry, Kept, SameRest;
    WorkDb(db, e);
    if e.DoDeny? {
      DenyFrame(db, e.row, e.version, e.denial, e.now);
    } else {
      RetryFrame(db, e.row, e.now);
    }
  }

  lemma DenyFrame(db: Db, row: nat, version: int, denial: Code, now: Instant)
    ensures SameRest(db, Kept(db, Deny(db, row, version, denial, now)))
  {
    hide SkipExpired, Invalidate, Finish, TerminalStatus, Put, SameRest;
    RestRefl(db);
    if row < |db.jobs| && TerminalStatus(denial).Some? {
      var job, status := db.jobs[row], TerminalStatus(denial).value;
      PutFrame(db, row, SkipExpired(job, now), Skipped);
      PutFrame(db, row, Invalidate(job, version, now), Cancelled);
      PutFrame(db, row, Finish(job, status, denial, now, now), status);
    }
  }

  lemma RetryFrame(db: Db, row: nat, now: Instant)
    requires db.Shaped()
    ensures SameRest(db, Kept(db, Retry(db, row, now)))
  {
    hide ValidTransition, PolicyAllows, StandingOf, Reopenable, Reopened;
  }

  lemma CompleteFrame(db: Db, row: nat, version: int, number: int, jitter: int, now: Instant)
    requires db.Shaped()
    ensures SameRest(db, Kept(db, Complete(db, row, version, number, jitter, now)))
  {
    hide SkipExpired, Invalidate, Finish, Judge, Job.Leased, ValidTransition, ValidSourceInvalidation, Attempt.Valid, NextRetry;
  }

  lemma OutcomeFrame(db: Db, e: Event)
    requires db.Shaped() && (e.DoCall? || e.DoSettle? || e.DoRecover? || e.DoContinue?)
    ensures SameRest(db, DbAfter(db, e))
  {
    hide DbAfter, Attempt.Valid, ValidAttemptTransition, ValidOutcome, Normalise, Settled, SameObservation, Abandoned, Proven, ResultSource,
         Admission.Admit, CandidatesOf;
    WorkDb(db, e);
  }

  lemma EndingFrame(db: Db, e: Event)
    requires db.Shaped() && (e.DoExpire? || e.DoRemovePost? || e.DoRemoveReply?)
    ensures SameRest(db, DbAfter(db, e))
  {
    hide Expire, CancelRemoved;
    match e
    case DoExpire(rows, cutoff, now) => ExpireFrame(db, rows, cutoff, now);
    case DoRemovePost(post, rows, now) =>
      if post in db.posts {
        CancelFrame(db.(posts := db.posts[post := db.posts[post].(deleted := true)]), post, rows, now);
      }
    case DoRemoveReply(reply, rows, now) =>
      if reply in db.replies {
        CancelFrame(db.(replies := db.replies[reply := db.replies[reply].(deleted := true)]), db.replies[reply].post, rows, now);
      }
  }

  /** The schedule of a settings row: its policy, its day and its slots. */
  predicate KeepsSchedule(s: Settings, r: Settings) {
    r.policy == s.policy && r.nextPostAt == s.nextPostAt && r.scheduleDate == s.scheduleDate && r.remaining == s.remaining
  }

  /** Settings rows that keep their schedules. */
  ghost predicate Calm(before: Db, after: Db) {
    forall id :: id in before.settings ==> id in after.settings && KeepsSchedule(before.settings[id], after.settings[id])
  }

  lemma {:induction false} EnableFrame(db: Db, agents: seq<Id>, single: bool, enabled: bool, now: Instant)
    ensures Kept(db, Enable(db, agents, single, enabled, now)).reposts == db.reposts
    ensures Calm(db, Kept(db, Enable(db, agents, single, enabled, now)))
    decreases agents
  {
    hide Settings.Valid;
    if agents != [] {
      EnableFrame(db, agents[..|agents| - 1], single, enabled, now);
    }
  }

  lemma PublishFrame(db: Db, row: nat, version: int, p: Printing)
    requires db.Shaped()
    ensures Kept(db, PublishJob(db, row, version, p)).reposts == db.reposts
    ensures Calm(db, Kept(db, PublishJob(db, row, version, p)))
  {
    hide SourceValid, Settings.Valid, Authorised, StillAuthorised, Admission.Admit, CandidatesOf, Printed;
  }

  lemma ControlFrame(db: Db, e: Event)
    requires db.Shaped() && (e.DoSchedule? || e.DoSetPolicy?)
    ensures DbAfter(db, e).reposts == db.reposts
  {
    hide DbAfter, Settings.Valid, Policy.Valid, Schedule.Advance, Schedule.ChangePolicy, Members, SlotDay, Admission.Taken, Job.Valid;
    WorkDb(db, e);
  }

  lemma RepostsSame(db: Db, e: Event)
    requires db.Shaped() && !e.DoRemoveRepost? && !e.DoAct?
    ensures DbAfter(db, e).reposts == db.reposts
  {
    hide DbAfter;
    if e.DoClaim? || e.DoRenew? || e.DoReserve? || e.DoComplete? || e.DoDeny? || e.DoRetry? {
      WorkFrame(db, e);
    } else if e.DoCall? || e.DoSettle? || e.DoRecover? || e.DoContinue? {
      OutcomeFrame(db, e);
    } else if e.DoExpire? || e.DoRemovePost? || e.DoRemoveReply? {
      EndingFrame(db, e);
    } else if e.DoSchedule? || e.DoSetPolicy? {
      ControlFrame(db, e);
    } else {
      FleetFrame(db, e);
    }
  }

  lemma FleetFrame(db: Db, e: Event)
    requires db.Shaped() && (e.DoEnable? || e.DoPublish?)
    ensures DbAfter(db, e).reposts == db.reposts && Calm(db, DbAfter(db, e))
  {
    hide Enable, PublishJob, Calm;
    match e
    case DoEnable(agents, single, enabled, now) => EnableFrame(db, agents, single, enabled, now);
    case DoPublish(row, version, p) => PublishFrame(db, row, version, p);
  }

  lemma SourceFrame(db: Db, e: Event)
    requires db.Shaped() && (e.DoAct? || e.DoRemoveRepost?)
    ensures DbAfter(db, e).settings == db.settings
  {
    hide DbAfter, CancelRemoved, Admission.Admit, CandidatesOf, SocialSource, AlreadyReposted;
    WorkDb(db, e);
    if e.DoRemoveRepost? {
      CancelFrame(Unreposted(db, e.repost, e.post), e.post, e.rows, e.now);
    }
  }

  /** Only scheduling passes and policy edits touch a schedule. */
  lemma SchedulesSame(db: Db, e: Event)
    requires db.Shaped() && !e.DoSchedule? && !e.DoSetPolicy?
    ensures Calm(db, DbAfter(db, e))
  {
    hide DbAfter;
    if e.DoClaim? || e.DoRenew? || e.DoReserve? || e.DoComplete? || e.DoDeny? || e.DoRetry? {
      WorkFrame(db, e);
    } else if e.DoCall? || e.DoSettle? || e.DoRecover? || e.DoContinue? {
      OutcomeFrame(db, e);
    } else if e.DoExpire? || e.DoRemovePost? || e.DoRemoveReply? {
      EndingFrame(db, e);
    } else if e.DoAct? || e.DoRemoveRepost? {
      SourceFrame(db, e);
    } else {
      FleetFrame(db, e);
    }
  }

  // ---- Switches ----

  /** An agent's settings row keeps its switch and its last publication. */
  predicate KeepsSwitch(s: Settings, r: Settings) {
    r.agent == s.agent && r.enabled == s.enabled && r.lastPublishedAt == s.lastPublishedAt
  }

  ghost predicate SameSwitches(before: Db, after: Db) {
    && after.accounts == before.accounts && after.settings.Keys == before.settings.Keys
    && forall id :: id in before.settings ==> KeepsSwitch(before.settings[id], after.settings[id])
  }

  /** Only operator controls turn a switch, and only publications move the instant of the last one. */
  lemma SwitchesSame(db: Db, e: Event)
    requires db.Shaped() && !e.DoEnable? && !e.DoPublish?
    ensures SameSwitches(db, DbAfter(db, e))
  {
    hide DbAfter, SameSwitches;
    if e.DoSchedule? || e.DoSetPolicy? {
      ControlSwitches(db, e);
    } else if e.DoAct? || e.DoRemoveRepost? {
      SourceFrame(db, e);
      SourceAccounts(db, e);
      SwitchesEqual(db, DbAfter(db, e));
    } else {
      if e.DoClaim? || e.DoRenew? || e.DoReserve? || e.DoComplete? || e.DoDeny? || e.DoRetry? {
        WorkFrame(db, e);
      } else if e.DoCall? || e.DoSettle? || e.DoRecover? || e.DoContinue? {
        OutcomeFrame(db, e);
      } else {
        EndingFrame(db, e);
      }
      SwitchesEqual(db, DbAfter(db, e));
    }
  }

  lemma SwitchesEqual(before: Db, after: Db)
    requires after.settings == before.settings && after.accounts == before.accounts
    ensures SameSwitches(before, after)
  {
  }

  lemma SourceAccounts(db: Db, e: Event)
    requires db.Shaped() && (e.DoAct? || e.DoRemoveRepost?)
    ensures DbAfter(db, e).accounts == db.accounts
  {
    hide DbAfter, CancelRemoved, Admission.Admit, CandidatesOf, SocialSource, AlreadyReposted;
    WorkDb(db, e);
    if e.DoRemoveRepost? {
      CancelFrame(Unreposted(db, e.repost, e.post), e.post, e.rows, e.now);
    }
  }

  lemma ControlSwitches(db: Db, e: Event)
    requires db.Shaped() && (e.DoSchedule? || e.DoSetPolicy?)
    ensures SameSwitches(db, DbAfter(db, e))
  {
    hide DbAfter, ScheduleAgent, SetPolicy, Kept, SameSwitches;
    WorkDb(db, e);
    if e.DoSchedule? {
      PassSwitches(db, e.agent, e.now, e.draw, e.uuid);
    } else {
      EditSwitches(db, e.agent, e.policy, e.now);
    }
  }

  lemma PassSwitches(db: Db, agent: Id, now: Instant, draw: Schedule.Draw, uuid: nat)
    ensures SameSwitches(db, Kept(db, ScheduleAgent(db, agent, now, draw, uuid)))
  {
    hide Settings.Valid, Schedule.Advance, Members, SlotDay, Admission.Taken, Job.Valid, SlotJob;
  }

  lemma EditSwitches(db: Db, agent: Id, policy: Policy, now: Instant)
    ensures SameSwitches(db, Kept(db, SetPolicy(db, agent, policy, now)))
  {
    hide Settings.Valid, Policy.Valid;
  }

  /** A control turns exactly the switches of the agents it names; a fleet-wide resume passes over those that cannot run. */
  lemma {:induction false} EnableSwitches(db: Db, agents: seq<Id>, single: bool, enabled: bool, now: Instant, id: Id)
    requires Enable(db, agents, single, enabled, now).Commit?
    ensures var after := Enable(db, agents, single, enabled, now).db;
            && after.accounts == db.accounts && after.settings.Keys == db.settings.Keys
            && (id in agents ==> id in db.settings)
            && (id in db.settings && id !in agents ==> after.settings[id] == db.settings[id])
            && (id in db.settings ==> after.settings[id].lastPublishedAt == db.settings[id].lastPublishedAt)
            && (id in agents && !enabled ==> !after.settings[id].enabled)
    decreases agents
  {
    hide Settings.Valid;
    if agents != [] {
      EnableSwitches(db, agents[..|agents| - 1], single, enabled, now, id);
    }
  }

  /** A publication moves nothing but its own agent's last publication. */
  lemma PublishSwitches(db: Db, row: nat, version: int, p: Printing)
    requires db.Shaped() && PublishJob(db, row, version, p).Commit?
    ensures var after, agent := PublishJob(db, row, version, p).db, db.jobs[row].origin.agent;
            && row < |db.jobs| && after.accounts == db.accounts && after.settings.Keys == db.settings.Keys
            && (db.jobs[row].status == JobSucceeded ==> after == db)
            && (db.jobs[row].status != JobSucceeded ==>
                  && agent in db.settings
                  && after.settings == db.settings[agent := db.settings[agent].(lastPublishedAt := Some(p.now), updatedAt := p.now)])
  {
    hide SourceValid, Settings.Valid, Authorised, StillAuthorised, Admission.Admit, CandidatesOf, Printed;
  }
}
