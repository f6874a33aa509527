/** Runs whose clock never goes back: every reservation lies in the past, so cleanup always succeeds. */
module Timely {
  import opened Basics
  import opened Policies
  import opened Attempts
  import opened Jobs
  import opened Eligibility
  import opened Admission
  import opened Tables
  import opened Transactions
  import opened Operations
  import opened Protocol
  import opened Effects
  import opened Growth
  import opened Changes
  import opened Invariants
  import Fences
  import Revocation
  import Schedule

  /** An event's clock readings, in the order they are taken. */
  function Times(e: Event): seq<Instant> {
    match e
    case DoClaim(_, now, later) => [now, later]
    case DoReserve(_, _, _, at) => [at.now, at.counted, at.final]
    case DoCall(_, _, _) => []
    case DoPublish(_, _, p) => [p.now, p.admitted, p.final]
    case DoExpire(_, cutoff, now) => [cutoff, now]
    case DoAct(_, _, _, _, _, written, _, now) => [written, now]
    case DoRenew(_, _, now) => [now]
    case DoSettle(_, _, _, now) => [now]
    case DoRecover(_, _, now) => [now]
    case DoComplete(_, _, _, _, now) => [now]
    case DoDeny(_, _, _, now) => [now]
    case DoRetry(_, now) => [now]
    case DoRemovePost(_, _, now) => [now]
    case DoRemoveReply(_, _, now) => [now]
    case DoRemoveRepost(_, _, _, now) => [now]
    case DoEnable(_, _, _, now) => [now]
    case DoSetPolicy(_, _, now) => [now]
    case DoSchedule(_, now, _, _) => [now]
    case DoContinue(_, _, now) => [now]
  }

  predicate Ordered(clock: Instant, times: seq<Instant>) {
    (forall i :: 0 <= i < |times| ==> clock <= times[i]) && (forall i, j :: 0 <= i < j < |times| ==> times[i] <= times[j])
  }

  function ClockAfter(clock: Instant, times: seq<Instant>): Instant {
    if times == [] then clock else times[|times| - 1]
  }

  ghost predicate CreatedBy(db: Db, clock: Instant) {
    forall i :: 0 <= i < |db.jobs| ==> db.jobs[i].origin.createdAt <= clock
  }

  /** Admission stamps every row with its own clock. */
  lemma AdmittedAt(jobs: seq<Job>, source: Source, line: Line, candidates: seq<Candidate>, clock: Instant)
    requires Admit(jobs, source, line, candidates, clock).Some?
    ensures var rows := Admit(jobs, source, line, candidates, clock).value;
            forall i :: |jobs| <= i < |rows| ==> rows[i].origin.createdAt == clock
  {
    hide Admit, Allowance, Job.Valid, Willing, Taken;
    AdmitFacts(jobs, source, line, candidates, clock);
    var rows := Admit(jobs, source, line, candidates, clock).value;
    forall i | |jobs| <= i < |rows| ensures rows[i].origin.createdAt == clock {
      assert SealedBy(rows, i, candidates, source, line, clock);
    }
  }

  /** New rows are created at a reading of the event that reserves them. */
  lemma CreatedNow(db: Db, e: Event)
    requires db.Shaped() && (e.DoSchedule? || e.DoAct? || e.DoContinue? || e.DoPublish?)
    ensures forall i :: |db.jobs| <= i < |DbAfter(db, e).jobs| ==> DbAfter(db, e).jobs[i].origin.createdAt in Times(e)
  {
    hide Admit, Job.Valid, Schedule.Advance, Settings.Valid, CandidatesOf, SocialSource, WriteAction, Proven, ResultSource,
         Authorised, StillAuthorised, StandingOf, Members, SlotDay, Taken, Replay;
    match e
    case DoSchedule(agent, now, draw, uuid) =>
    case DoAct(kind, action, actor, target, content, at, picks, now) =>
      if Act(db, kind, action, actor, target, content, at, picks, now).Commit? {
        var written := WriteAction(db, kind, action, actor, target, content, at).value;
        WrittenJobs(db, kind, action, actor, target, content, at);
        AdmittedAt(written.jobs, SocialSource(written, kind, action).value, Direct, CandidatesOf(written, picks, actor), now);
      }
    case DoContinue(row, picks, now) =>
      if Continue(db, row, picks, now).Commit? {
        var source := ResultSource(db, db.jobs[row]).value;
        var candidates := if AccountLive(db, source.actor) then CandidatesOf(db, picks, source.actor) else [];
        AdmittedAt(db.jobs, source, Child(db.jobs[row], db.jobs[db.jobs[row].origin.root]), candidates, now);
      }
    case DoPublish(row, version, p) => PrintedNow(db, row, version, p);
  }

  lemma WrittenJobs(db: Db, kind: Trigger, action: Id, actor: Id, target: Option<Id>, content: Content, at: Instant)
    ensures var r := WriteAction(db, kind, action, actor, target, content, at);
            r.Some? ==> r.value.jobs == db.jobs
  {
  }

  lemma PrintedNow(db: Db, row: nat, version: int, p: Printing)
    requires db.Shaped()
    ensures var r := PublishJob(db, row, version, p);
            r.Commit? ==> forall i :: |db.jobs| <= i < |r.db.jobs| ==> r.db.jobs[i].origin.createdAt == p.admitted
  {
    hide Admit, Job.Valid, CandidatesOf, Authorised, StillAuthorised, StandingOf;
    var r := PublishJob(db, row, version, p);
    if r.Commit? && db.jobs[row].status != JobSucceeded {
      var job := db.jobs[row];
      var s := StandingOf(db, job.origin).settings;
      var written := InsertContent(db, job, p).value.WithJob(row, Printed(job, p))
        .(settings := db.settings[job.origin.agent := s.(lastPublishedAt := Some(p.now), updatedAt := p.now)]);
      AdmittedAt(written.jobs, ChildSource(job, p), Child(Printed(job, p), written.jobs[job.origin.root]),
                 CandidatesOf(db, p.picks, job.origin.agent), p.admitted);
    }
  }

  lemma TimesBound(clock: Instant, times: seq<Instant>, t: Instant)
    requires Ordered(clock, times)
    ensures clock <= ClockAfter(clock, times)
    ensures t in times ==> t <= ClockAfter(clock, times)
  {
  }

  lemma CreatedStays(w: World, e: Event, clock: Instant)
    requires Inv(w) && Honest(w, e) && CreatedBy(w.db, clock) && Ordered(clock, Times(e))
    ensures CreatedBy(DbAfter(w.db, e), ClockAfter(clock, Times(e)))
  {
    hide RowSound, Chains.Chained, DbAfter, Explains, Honest, Ordered;
    var after := DbAfter(w.db, e);
    var c := EventSound(w, e);
    Revocation.ChangeGrows(w, Apply(w, e), c);
    TimesBound(clock, Times(e), clock);
    NewRowsCreated(w, e, c);
    forall i | 0 <= i < |after.jobs| ensures after.jobs[i].origin.createdAt <= ClockAfter(clock, Times(e)) {
      if i < |w.db.jobs| {
        assert Revocation.RowGrows(w.db, after, i);
      } else {
        TimesBound(clock, Times(e), after.jobs[i].origin.createdAt);
      }
    }
  }

  lemma NewRowsCreated(w: World, e: Event, c: Change)
    requires Inv(w) && Explains(w, Apply(w, e), c) && Causes(w, e, c)
    ensures forall i :: |w.db.jobs| <= i < |DbAfter(w.db, e).jobs| ==> DbAfter(w.db, e).jobs[i].origin.createdAt in Times(e)
  {
    hide RowSound, Chains.Chained, DbAfter, HistoryAfter, Around, JobStep, ReservationFacts, ValidAttemptTransition, Grew, Published, RetryCommitted;
    if e.DoSchedule? || e.DoAct? || e.DoContinue? || e.DoPublish? {
      CreatedNow(w.db, e);
    }
  }

  ghost predicate TimelyRun(w: World, events: seq<Event>, clock: Instant)
    requires Inv(w) && HonestRun(w, events)
    decreases |events|
  {
    events != [] ==> Ordered(clock, Times(events[0]))
                     && (Step(w, events[0]);
                         TimelyRun(Apply(w, events[0]), events[1..], ClockAfter(clock, Times(events[0]))))
  }

  function ClockOf(events: seq<Event>, clock: Instant): Instant
    decreases |events|
  {
    if events == [] then clock else ClockOf(events[1..], ClockAfter(clock, Times(events[0])))
  }

  lemma {:induction false} RunCreated(w: World, events: seq<Event>, clock: Instant)
    requires Inv(w) && HonestRun(w, events) && TimelyRun(w, events, clock) && CreatedBy(w.db, clock)
    ensures CreatedBy(Run(w, events).db, ClockOf(events, clock))
    decreases |events|
  {
    hide RowSound, Chains.Chained, DbAfter, HistoryAfter, Honest, CreatedBy, Ordered;
    if events != [] {
      CreatedStays(w, events[0], clock);
      Step(w, events[0]);
      RunCreated(Apply(w, events[0]), events[1..], ClockAfter(clock, Times(events[0])));
    }
  }

  /** Along a nondecreasing clock no claim, expiry or source cleanup refuses a row its query selected: each commits,
      expiry skips exactly the expired rows it was given, and cleanup ends every row whose source is gone. */
  lemma NothingRefused(db: Db, events: seq<Event>, clock: Instant, row: nat, now: Instant, later: Instant, rows: seq<nat>, post: Id)
    requires db.jobs == [] && db.attempts == [] && HonestRun(Start(db), events) && TimelyRun(Start(db), events, clock)
    requires ClockOf(events, clock) <= now <= later
    ensures var after := Run(Start(db), events).db;
            && (row < |after.jobs| && after.jobs[row].lease < 0x7fff_ffff_ffff_ffff ==> Claim(after, row, now, later).Commit?)
            && Expire(after, rows, now, later).Commit?
            && (forall r :: r in rows && Expirable(after, r, now) ==>
                  r < |Expire(after, rows, now, later).db.jobs| && Expire(after, rows, now, later).db.jobs[r].status == Skipped)
            && CancelRemoved(after, post, rows, later).Commit?
            && (forall r :: r in rows && Removable(after, r, post) ==>
                  r < |CancelRemoved(after, post, rows, later).db.jobs| && !CancelRemoved(after, post, rows, later).db.jobs[r].Active())
  {
    hide RowSound, Chains.Chained, Run, HonestRun, TimelyRun, Claim, Job.Valid, SourceGone;
    var w := Run(Start(db), events);
    RunCreated(Start(db), events, clock);
    forall i | 0 <= i < |w.db.jobs| ensures w.db.jobs[i].Valid() {
      Revocation.RowValid(w, i);
    }
    if row < |w.db.jobs| && w.db.jobs[row].lease < 0x7fff_ffff_ffff_ffff {
      Fences.ClaimNeverRefuses(w.db, row, now, later);
    }
    Fences.ExpiryNeverRefuses(w.db, rows, now, later);
    Fences.CleanupNeverRefuses(w.db, post, rows, later);
  }
}
