/** Who may act: nobody who is switched off makes a call, reopens work or publishes, and whoever does was allowed to,
    column by column, at every clock reading. */
module Authority {
  import opened Basics
  import opened Policies
  import opened Attempts
  import opened Jobs
  import opened Eligibility
  import opened Tables
  import opened Transactions
  import opened Operations
  import opened Protocol
  import opened Effects
  import opened Growth
  import opened Changes
  import opened Invariants
  import opened Admission
  import Frames
  import Schedule

  /** No settings, a switch that is off, a disabled account, or no agent at all. */
  predicate SwitchedOff(db: Db, agent: Id) {
    || agent !in db.settings || !db.settings[agent].enabled
    || agent !in db.accounts || db.accounts[agent].disabled || !db.accounts[agent].agent
  }

  /** The post, reply or repost a job responds to is there, whoever wrote it still has an account, and it is what it was. */
  predicate SourceThere(db: Db, o: Origin) {
    && o.sourcePost.Some? && o.sourcePost.value in db.posts && o.actor.Some?
    && var post, actor := db.posts[o.sourcePost.value], o.actor.value;
    && !post.deleted
    && (forall id :: id in {post.author, actor} ==> id in db.accounts && !db.accounts[id].disabled)
    && match o.sourceReply
       case Some(r) => r in db.replies && !db.replies[r].deleted && db.replies[r].post == o.sourcePost.value && db.replies[r].author == actor
       case None =>
         match o.kind
         case RepostTrigger =>
           && o.sourceRepost.Some? && o.sourceRepost.value in db.reposts
           && db.reposts[o.sourceRepost.value].post == o.sourcePost.value && db.reposts[o.sourceRepost.value].account == actor
         case HumanPost => post.author == actor && post.quoted.None?
         case QuoteTrigger => post.author == actor && post.quoted.Some?
         case _ => post.author == actor
  }

  /** The columns a policy has for a job's kind; a zero in any of them means that no such work is wanted. */
  function QuotasFor(o: Origin, p: Policy): seq<int> {
    [p.dailyTokens]
    + match o.kind
      case Scheduled => [p.postCap, p.scheduledMax]
      case ReplyTrigger => [p.replyCapPerDay, p.replyCapPerConversation, p.maxAgents, p.replyBps, p.humanCap]
      case RepostTrigger => [p.replyCapPerDay, p.replyCapPerConversation, p.maxAgents, p.repostBps, p.humanCap]
      case QuoteTrigger => [p.replyCapPerDay, p.replyCapPerConversation, p.maxAgents, p.quoteBps, p.humanCap]
      case HumanPost => [p.replyCapPerDay, p.replyCapPerConversation, p.maxAgents, p.humanPostBps, p.humanCap]
      case Continuation => [p.replyCapPerDay, p.replyCapPerConversation, p.maxAgents, p.continuationBps, p.maxDepth]
  }

  /** The agent's last publication is a full spacing past, and every quota of the kind is open. */
  predicate Open(o: Origin, s: Settings, now: Instant) {
    && (forall i :: 0 <= i < |QuotasFor(o, s.policy)| ==> QuotasFor(o, s.policy)[i] > 0)
    && (o.kind == Continuation ==> o.depth <= s.policy.maxDepth)
    && (s.lastPublishedAt.Some? ==> now >= s.lastPublishedAt.value + s.policy.minSpacing * 1_000_000)
  }

  predicate Within(at: Instant, p: Policy, now: Instant) {
    at <= now < at + p.sourceMaxAge * 1_000_000
  }

  /** What the job responds to, or the slot it was scheduled for, is not older than the policy wants. */
  predicate Young(db: Db, o: Origin, p: Policy, now: Instant) {
    if o.kind == Scheduled then o.key.SlotKey? && o.key.slot <= o.createdAt <= now && Within(o.key.slot, p, now)
    else if o.kind == RepostTrigger then
      o.sourceRepost.Some? && o.sourceRepost.value in db.reposts && Within(db.reposts[o.sourceRepost.value].createdAt, p, now)
    else match o.sourceReply
      case Some(r) => r in db.replies && Within(db.replies[r].createdAt, p, now)
      case None => o.sourcePost.Some? && o.sourcePost.value in db.posts && Within(db.posts[o.sourcePost.value].createdAt, p, now)
  }

  /** The worker holding the lease is still within it, and the job within its life. */
  predicate Live(job: Job, version: int, now: Instant) {
    && job.status == Running && job.lease == version && job.leaseExpiresAt.Some?
    && now < job.leaseExpiresAt.value && now < job.origin.expiresAt
  }

  /** A job makes progress: a call is reserved for it, an operator reopens it, or it is newly published. */
  ghost predicate Works(db: Db, e: Event, row: nat)
    requires db.Shaped()
  {
    row < |db.jobs|
    && match e
       case DoReserve(r, version, prompt, at) =>
         r == row && Reserve(db, row, version, prompt, at).Commit? && Reserve(db, row, version, prompt, at).result.attempt.Some?
       case DoRetry(r, now) => r == row && Retry(db, row, now).Commit?
       case DoPublish(r, version, p) => r == row && db.jobs[row].status != JobSucceeded && PublishJob(db, row, version, p).Commit?
       case _ => false
  }

  /** The readings at which such an event needs authority; a reservation and a publication take more than one. */
  function AuthorityReadings(e: Event): set<Instant> {
    match e
    case DoReserve(_, _, _, at) => {at.now, at.counted, at.final}
    case DoRetry(_, now) => {now}
    case DoPublish(_, _, p) => {p.now, p.final}
    case _ => {}
  }

  function PolicyReadings(e: Event): set<Instant> {
    match e
    case DoReserve(_, _, _, at) => {at.now, at.counted}
    case DoRetry(_, now) => {now}
    case DoPublish(_, _, p) => {p.now}
    case _ => {}
  }

  function FenceOf(e: Event): int {
    if e.DoReserve? || e.DoPublish? then e.version else 0
  }

  // ---- Each authority, read column by column ----

  lemma SourceColumns(db: Db, o: Origin)
    requires ValidOrigin(o)
    ensures SourceValid(db, o) <==> o.kind == Scheduled || SourceThere(db, o)
  {
  }

  lemma AgentColumns(db: Db, agent: Id)
    ensures AgentReady(db, agent).Some? <==>
              && !SwitchedOff(db, agent) && db.settings[agent].Valid()
              && (db.settings[agent].remaining > 0 ==> db.settings[agent].nextPostAt.Some?)
    ensures AgentReady(db, agent).Some? ==> AgentReady(db, agent) == Some(db.settings[agent])
  {
    hide Settings.Valid;
  }

  lemma PolicyColumns(db: Db, job: Job, s: Settings, now: Instant)
    requires PolicyAllows(db, job, s, now)
    ensures job.Valid() && Open(job.origin, s, now) && TimeAllowed(job.origin, s.policy, SourceCreated(db, job.origin), now)
  {
    hide Members, UpTo, Before, DayGroup, ActionGroup, ChainUpTo, TimeAllowed, SourceCreated;
    TimeOfPolicy(db, job, s, now);
  }

  lemma TimeOfPolicy(db: Db, job: Job, s: Settings, now: Instant)
    requires PolicyAllows(db, job, s, now)
    ensures TimeAllowed(job.origin, s.policy, SourceCreated(db, job.origin), now)
  {
    hide Members, UpTo, Before, DayGroup, ActionGroup, ChainUpTo, Job.Valid, Policy.Valid, SourceCreated;
  }

  lemma TimeColumns(db: Db, o: Origin, p: Policy, now: Instant)
    requires ValidOrigin(o) && (o.kind != Scheduled ==> SourceThere(db, o))
    requires TimeAllowed(o, p, SourceCreated(db, o), now)
    ensures Young(db, o, p, now)
  {
    hide Policy.Valid, Policy.Window, Zones.Zone.Date;
  }

  lemma LiveColumns(job: Job, version: int, now: Instant)
    requires job.Leased(version, now)
    ensures Live(job, version, now)
  {
  }

  // ---- One event ----

  /** Progress is only made under authority: the agent is switched on and its source is there; at every reading the job is young
      and unexpired and its lease live, and at every reading of the policy all its quotas are open. */
  lemma WorkIsAuthorised(db: Db, e: Event, row: nat)
    requires db.Shaped() && Works(db, e, row)
    ensures var o := db.jobs[row].origin;
            && !SwitchedOff(db, o.agent) && db.settings[o.agent].Valid() && (o.kind != Scheduled ==> SourceThere(db, o))
            && (forall now :: now in PolicyReadings(e) ==> Open(o, db.settings[o.agent], now))
            && (forall now :: now in AuthorityReadings(e) ==>
                  now < o.expiresAt && Young(db, o, db.settings[o.agent].policy, now) && (e.DoRetry? || Live(db.jobs[row], FenceOf(e), now)))
  {
    hide Reserve, Retry, PublishJob, SwitchedOff, SourceThere, Open, Young, Live, Settings.Valid;
    match e
    case DoReserve(_, version, prompt, at) => ReservingIsAuthorised(db, row, version, prompt, at);
    case DoRetry(_, now) => RetryingIsAuthorised(db, row, now);
    case DoPublish(_, version, p) => PublishingIsAuthorised(db, row, version, p);
    case _ =>
  }

  /** The columns behind a granted standing. */
  lemma StandingColumns(db: Db, job: Job, s: Settings)
    requires StandingOf(db, job.origin) == Granted(s) && ValidOrigin(job.origin)
    ensures var o := job.origin;
            !SwitchedOff(db, o.agent) && s == db.settings[o.agent] && s.Valid() && (o.kind != Scheduled ==> SourceThere(db, o))
  {
    hide ValidOrigin, Settings.Valid, SourceThere, SourceValid, AgentReady, SwitchedOff;
    SourceColumns(db, job.origin);
    AgentColumns(db, job.origin.agent);
  }

  lemma JobOrigin(job: Job)
    requires job.Valid()
    ensures ValidOrigin(job.origin)
  {
  }

  lemma ReservingIsAuthorised(db: Db, row: nat, version: int, prompt: Option<nat>, at: Readings)
    requires db.Shaped() && Works(db, DoReserve(row, version, prompt, at), row)
    ensures var job := db.jobs[row];
            var o, s := job.origin, db.settings[job.origin.agent];
            && !SwitchedOff(db, o.agent) && s.Valid() && (o.kind != Scheduled ==> SourceThere(db, o))
            && Open(o, s, at.now) && Open(o, s, at.counted)
            && forall now :: now in AuthorityReadings(DoReserve(row, version, prompt, at)) ==>
                 now < o.expiresAt && Young(db, o, s.policy, now) && Live(job, version, now)
  {
    hide SwitchedOff, SourceThere, Open, Young, Live, Settings.Valid, Job.Valid, StandingOf, PolicyAllows, TimeAllowed, SourceCreated;
    var job := db.jobs[row];
    ReservedStanding(db, row, version, prompt, at);
    var s := StandingOf(db, job.origin).settings;
    PolicyColumns(db, job, s, at.now);
    PolicyColumns(db, job, s, at.counted);
    JobOrigin(job);
    StandingColumns(db, job, s);
    forall now | now in {at.now, at.counted, at.final}
      ensures now < job.origin.expiresAt && Live(job, version, now) && Young(db, job.origin, s.policy, now)
    {
      LiveColumns(job, version, now);
      TimeColumns(db, job.origin, s.policy, now);
    }
  }

  lemma ReservedStanding(db: Db, row: nat, version: int, prompt: Option<nat>, at: Readings)
    requires db.Shaped() && Works(db, DoReserve(row, version, prompt, at), row)
    ensures var job := db.jobs[row];
            && StandingOf(db, job.origin).Granted?
            && var s := StandingOf(db, job.origin).settings;
            && PolicyAllows(db, job, s, at.now) && PolicyAllows(db, job, s, at.counted)
            && TimeAllowed(job.origin, s.policy, SourceCreated(db, job.origin), at.final)
            && (forall now :: now in {at.now, at.counted, at.final} ==> job.Leased(version, now) && now < job.origin.expiresAt)
  {
    hide Settings.Valid, Job.Valid, StandingOf, PolicyAllows, TimeAllowed, SourceCreated, Job.Leased, SkipExpired, Finish, InvalidOutputs, Charge,
         NewAttempt, Attempt.Valid;
  }

  lemma RetryingIsAuthorised(db: Db, row: nat, now: Instant)
    requires db.Shaped() && Works(db, DoRetry(row, now), row)
    ensures var o, s := db.jobs[row].origin, db.settings[db.jobs[row].origin.agent];
            && !SwitchedOff(db, o.agent) && s.Valid() && (o.kind != Scheduled ==> SourceThere(db, o))
            && Open(o, s, now) && now < o.expiresAt && Young(db, o, s.policy, now)
  {
    hide SwitchedOff, SourceThere, Open, Young, Live, Settings.Valid, Job.Valid, StandingOf, PolicyAllows, TimeAllowed, SourceCreated, Reopenable,
         Reopened, ValidTransition;
    var job := db.jobs[row];
    var s := StandingOf(db, job.origin).settings;
    PolicyColumns(db, job, s, now);
    JobOrigin(job);
    StandingColumns(db, job, s);
    TimeColumns(db, job.origin, s.policy, now);
  }

  lemma PublishingIsAuthorised(db: Db, row: nat, version: int, p: Printing)
    requires db.Shaped() && Works(db, DoPublish(row, version, p), row)
    ensures var job := db.jobs[row];
            var o, s := job.origin, db.settings[job.origin.agent];
            && !SwitchedOff(db, o.agent) && s.Valid() && (o.kind != Scheduled ==> SourceThere(db, o))
            && Open(o, s, p.now)
            && forall now :: now in AuthorityReadings(DoPublish(row, version, p)) ==>
                 now < o.expiresAt && Young(db, o, s.policy, now) && Live(job, version, now)
  {
    hide SwitchedOff, SourceThere, Open, Young, Live, Settings.Valid, Job.Valid, StandingOf, PolicyAllows, TimeAllowed, SourceCreated;
    var job := db.jobs[row];
    PublishedStanding(db, row, version, p);
    var s := StandingOf(db, job.origin).settings;
    PolicyColumns(db, job, s, p.now);
    JobOrigin(job);
    StandingColumns(db, job, s);
    TimeColumns(db, job.origin, s.policy, p.now);
    TimeColumns(db, job.origin, s.policy, p.final);
    LiveColumns(job, version, p.now);
    LiveColumns(job, version, p.final);
    LivesOn(job, version, p.now);
    LivesOn(job, version, p.final);
  }

  lemma LivesOn(job: Job, version: int, now: Instant)
    requires Live(job, version, now)
    ensures now < job.origin.expiresAt
  {
  }

  lemma PublishedStanding(db: Db, row: nat, version: int, p: Printing)
    requires db.Shaped() && Works(db, DoPublish(row, version, p), row)
    ensures var job := db.jobs[row];
            && StandingOf(db, job.origin).Granted?
            && var s := StandingOf(db, job.origin).settings;
            && PolicyAllows(db, job, s, p.now) && TimeAllowed(job.origin, s.policy, SourceCreated(db, job.origin), p.final)
            && job.Leased(version, p.now) && job.Leased(version, p.final)
  {
    hide Settings.Valid, Job.Valid, StandingOf, PolicyAllows, TimeAllowed, SourceCreated, Job.Leased, Attempt.Valid, Print, ValidTransition;
  }

  /** Nothing happens for an agent that is switched off: it makes no call, nobody reopens its work, and a publication of its rows
      commits only by answering an earlier one again. */
  lemma SwitchedOffStops(db: Db, row: nat, version: int, prompt: Option<nat>, at: Readings, p: Printing, now: Instant)
    requires db.Shaped() && row < |db.jobs| && SwitchedOff(db, db.jobs[row].origin.agent)
    ensures var r := Reserve(db, row, version, prompt, at); r.Commit? ==> r.result.attempt.None?
    ensures Retry(db, row, now).Abort?
    ensures var r := PublishJob(db, row, version, p);
            r.Commit? ==> r == Commit(db, db.jobs[row]) && db.jobs[row].status == JobSucceeded
  {
    hide Reserve, Retry, SwitchedOff, PublishLive, AuthorityReadings, PolicyReadings, Settings.Valid, Open, Young, Live, SourceThere;
    var reserve, retry, publish := DoReserve(row, version, prompt, at), DoRetry(row, now), DoPublish(row, version, p);
    if Works(db, reserve, row) {
      WorkIsAuthorised(db, reserve, row);
    }
    if Works(db, retry, row) {
      WorkIsAuthorised(db, retry, row);
    }
    if Works(db, publish, row) {
      WorkIsAuthorised(db, publish, row);
    }
  }

  // ---- New work ----

  /** A turn goes to exactly the picked agents that are switched on, other than the actor, with the settings stored for them. */
  lemma {:induction false} CandidatesExactly(db: Db, picks: seq<Pick>, actor: Id, c: Candidate)
    ensures c in CandidatesOf(db, picks, actor) <==>
              exists i :: 0 <= i < |picks| && TakesTurn(db, picks[i], actor, c)
    decreases picks
  {
    hide Settings.Valid;
    if picks != [] {
      var n := |picks| - 1;
      CandidatesExactly(db, picks[..n], actor, c);
      assert forall i :: 0 <= i < n ==> picks[..n][i] == picks[i];
      assert TakesTurn(db, picks[n], actor, c) ==> c in CandidatesOf(db, picks, actor);
    }
  }

  predicate TakesTurn(db: Db, pick: Pick, actor: Id, c: Candidate) {
    && pick.agent != actor && !SwitchedOff(db, pick.agent)
    && db.settings[pick.agent].Valid() && db.settings[pick.agent].agent == pick.agent
    && c == Candidate(db.settings[pick.agent], pick.uuid, pick.sample, pick.delay)
  }

  lemma AdmittedAgents(db: Db, jobs: seq<Job>, source: Source, line: Line, picks: seq<Pick>, actor: Id, clock: Instant)
    requires Admit(jobs, source, line, CandidatesOf(db, picks, actor), clock).Some?
    ensures var after := Admit(jobs, source, line, CandidatesOf(db, picks, actor), clock).value;
            forall i :: |jobs| <= i < |after| ==> after[i].origin.agent != actor && !SwitchedOff(db, after[i].origin.agent)
  {
    hide Admit, CandidatesOf, Sealed, SharedCaps, SwitchedOff;
    var cs := CandidatesOf(db, picks, actor);
    var after := Admit(jobs, source, line, cs, clock).value;
    AdmitFacts(jobs, source, line, cs, clock);
    forall i | |jobs| <= i < |after| ensures after[i].origin.agent != actor && !SwitchedOff(db, after[i].origin.agent) {
      assert SealedBy(after, i, cs, source, line, clock);
      var c :| c in cs && Sealed(after, i, c, source, line, clock);
      SealedAgent(after, i, c, source, line, clock);
      CandidatesExactly(db, picks, actor, c);
    }
  }

  lemma SealedAgent(jobs: seq<Job>, i: nat, c: Candidate, source: Source, line: Line, clock: Instant)
    requires i < |jobs| && Sealed(jobs, i, c, source, line, clock)
    ensures jobs[i].origin.agent == c.settings.agent
  {
    hide Job.Valid, Policy.Valid, Willing, Allowance, Taken;
  }

  /** Work is only ever reserved for agents that are switched on. */
  ghost predicate NewWorkOn(db: Db, after: Db) {
    forall i :: |db.jobs| <= i < |after.jobs| ==> !SwitchedOff(db, after.jobs[i].origin.agent)
  }

  /** Settings rows are found by their agent, as their primary key is. */
  ghost predicate Titled(db: Db) {
    forall id :: id in db.settings ==> db.settings[id].agent == id
  }

  lemma NewWorkIsAuthorised(w: World, e: Event)
    requires Inv(w) && Honest(w, e) && Titled(w.db)
    ensures NewWorkOn(w.db, DbAfter(w.db, e))
  {
    hide RowSound, Chains.Chained, DbAfter, HistoryAfter, Explains, Causes, Honest, NewWorkOn;
    var c := EventSound(w, e);
    if e.DoSchedule? {
      SlotsAuthorised(w.db, e);
    } else if e.DoAct? {
      ActAuthorised(w.db, e);
    } else if e.DoContinue? {
      ContinueAuthorised(w.db, e);
    } else if e.DoPublish? {
      ChildrenAuthorised(w.db, e);
    } else {
      NoNewWork(w, e, c);
    }
  }

  lemma NoNewWork(w: World, e: Event, c: Change)
    requires w.db.Shaped() && Explains(w, Apply(w, e), c) && Causes(w, e, c)
    requires !e.DoSchedule? && !e.DoAct? && !e.DoContinue? && !e.DoPublish?
    ensures NewWorkOn(w.db, DbAfter(w.db, e))
  {
    hide DbAfter, HistoryAfter, Around, JobStep, ReservationFacts, RequeueFacts, RetryCommitted, ValidAttemptTransition, SwitchedOff;
  }

  lemma SlotsAuthorised(db: Db, e: Event)
    requires db.Shaped() && e.DoSchedule? && Titled(db)
    ensures NewWorkOn(db, DbAfter(db, e))
  {
    hide Job.Valid, Schedule.Advance, Members, SlotDay, Taken, Policy.Valid;
  }

  lemma ActAuthorised(db: Db, e: Event)
    requires db.Shaped() && e.DoAct?
    ensures NewWorkOn(db, DbAfter(db, e))
  {
    hide SwitchedOff, Admit, CandidatesOf, SocialSource, WriteAction;
    var w := WriteAction(db, e.kind, e.action, e.actor, e.target, e.content, e.written);
    if w.Some? && SocialSource(w.value, e.kind, e.action).Some? {
      var written := w.value;
      var source := SocialSource(written, e.kind, e.action).value;
      WrittenSwitches(db, e, written);
      if Admit(written.jobs, source, Direct, CandidatesOf(written, e.picks, e.actor), e.now).Some? {
        AdmittedAgents(written, written.jobs, source, Direct, e.picks, e.actor, e.now);
      }
    }
  }

  lemma WrittenSwitches(db: Db, e: Event, written: Db)
    requires e.DoAct? && WriteAction(db, e.kind, e.action, e.actor, e.target, e.content, e.written) == Some(written)
    ensures written.jobs == db.jobs && forall id :: SwitchedOff(written, id) == SwitchedOff(db, id)
  {
    hide AlreadyReposted;
  }

  lemma ContinueAuthorised(db: Db, e: Event)
    requires db.Shaped() && e.DoContinue?
    ensures NewWorkOn(db, DbAfter(db, e))
  {
    hide SwitchedOff, Admit, CandidatesOf, Proven, ResultSource;
    if Continue(db, e.row, e.picks, e.now).Commit? {
      var source := ResultSource(db, db.jobs[e.row]).value;
      var line := Child(db.jobs[e.row], db.jobs[db.jobs[e.row].origin.root]);
      if AccountLive(db, source.actor) {
        AdmittedAgents(db, db.jobs, source, line, e.picks, source.actor, e.now);
      } else {
        NobodyAdmitted(db.jobs, source, line, e.now);
      }
    }
  }

  lemma NobodyAdmitted(jobs: seq<Job>, source: Source, line: Line, clock: Instant)
    ensures Admit(jobs, source, line, [], clock) == Some(jobs)
  {
    hide Turns;
  }

  lemma ChildrenAuthorised(db: Db, e: Event)
    requires db.Shaped() && e.DoPublish?
    ensures NewWorkOn(db, DbAfter(db, e))
  {
    hide DbAfter, SwitchedOff, Admit, CandidatesOf, Authorised, StillAuthorised, Printed, ChildSource, StandingOf;
    var row, version, p := e.row, e.version, e.printing;
    PublishDb(db, e);
    if PublishJob(db, row, version, p).Commit? && db.jobs[row].status != JobSucceeded {
      var s := StandingOf(db, db.jobs[row].origin).settings;
      var job := db.jobs[row];
      var jobs := db.WithJob(row, Printed(job, p)).jobs;
      var line := Child(Printed(job, p), jobs[job.origin.root]);
      if Admit(jobs, ChildSource(job, p), line, CandidatesOf(db, p.picks, job.origin.agent), p.admitted).Some? {
        AdmittedAgents(db, jobs, ChildSource(job, p), line, p.picks, job.origin.agent, p.admitted);
      }
    }
  }

  lemma PublishDb(db: Db, e: Event)
    requires db.Shaped() && e.DoPublish?
    ensures DbAfter(db, e) == Kept(db, PublishJob(db, e.row, e.version, e.printing))
  {
    hide PublishJob;
  }

  // ---- Runs ----

  /** A committed resume that names the agent. */
  predicate Resumes(db: Db, e: Event, agent: Id) {
    e.DoEnable? && e.enabled && agent in e.agents && Enable(db, e.agents, e.single, e.enabled, e.now).Commit?
  }

  /** Disabled accounts, and accounts that are no agents. */
  predicate Barred(db: Db, agent: Id) {
    agent !in db.accounts || db.accounts[agent].disabled || !db.accounts[agent].agent
  }

  ghost predicate Unresumed(w: World, events: seq<Event>, agent: Id)
    requires Inv(w) && HonestRun(w, events)
    decreases |events|
  {
    events != [] ==>
      !Resumes(w.db, events[0], agent) && (Step(w, events[0]); Unresumed(Apply(w, events[0]), events[1..], agent))
  }

  /** Throughout the run nothing is enqueued for the agent and none of its rows makes progress. */
  ghost predicate Idle(w: World, events: seq<Event>, agent: Id)
    requires Inv(w) && HonestRun(w, events)
    decreases |events|
  {
    events != [] ==>
      && (forall row: nat :: row < |w.db.jobs| && w.db.jobs[row].origin.agent == agent ==> !Works(w.db, events[0], row))
      && (Step(w, events[0]);
          var next := Apply(w, events[0]);
          && (forall i :: |w.db.jobs| <= i < |next.db.jobs| ==> next.db.jobs[i].origin.agent != agent)
          && Idle(next, events[1..], agent))
  }

  lemma TitledStays(db: Db, e: Event)
    requires db.Shaped() && Titled(db)
    ensures Titled(DbAfter(db, e))
  {
    hide Enable, PublishJob, DbAfter, Quiet;
    if e.DoEnable? {
      ControlledTitles(db, e);
    } else if e.DoPublish? {
      PublishedTitles(db, e);
    } else {
      Frames.SwitchesSame(db, e);
    }
  }

  lemma ControlledTitles(db: Db, e: Event)
    requires db.Shaped() && e.DoEnable? && Titled(db)
    ensures Titled(DbAfter(db, e))
  {
    hide Enable, JobStep, SourcesGrow;
    EnableQuiet(db, e.agents, e.single, e.enabled, e.now);
    if Enable(db, e.agents, e.single, e.enabled, e.now).Commit? {
      Frames.EnableSwitches(db, e.agents, e.single, e.enabled, e.now, 0);
    }
  }

  lemma PublishedTitles(db: Db, e: Event)
    requires db.Shaped() && e.DoPublish? && Titled(db)
    ensures Titled(DbAfter(db, e))
  {
    hide PublishJob;
    if PublishJob(db, e.row, e.version, e.printing).Commit? {
      Frames.PublishSwitches(db, e.row, e.version, e.printing);
    }
  }

  lemma StaysOff(db: Db, e: Event, agent: Id)
    requires db.Shaped() && SwitchedOff(db, agent) && (Barred(db, agent) || !Resumes(db, e, agent))
    ensures SwitchedOff(DbAfter(db, e), agent) && (Barred(db, agent) ==> Barred(DbAfter(db, e), agent))
  {
    hide Enable, PublishJob, DbAfter;
    if e.DoEnable? {
      ControlledOff(db, e, agent);
    } else if e.DoPublish? {
      PublishedOff(db, e, agent);
    } else {
      Frames.SwitchesSame(db, e);
    }
  }

  lemma ControlledOff(db: Db, e: Event, agent: Id)
    requires db.Shaped() && e.DoEnable? && SwitchedOff(db, agent) && (Barred(db, agent) || !Resumes(db, e, agent))
    ensures SwitchedOff(DbAfter(db, e), agent) && (Barred(db, agent) ==> Barred(DbAfter(db, e), agent))
  {
    hide Enable;
    if Enable(db, e.agents, e.single, e.enabled, e.now).Commit? {
      Frames.EnableSwitches(db, e.agents, e.single, e.enabled, e.now, agent);
    }
  }

  lemma PublishedOff(db: Db, e: Event, agent: Id)
    requires db.Shaped() && e.DoPublish? && SwitchedOff(db, agent)
    ensures SwitchedOff(DbAfter(db, e), agent) && (Barred(db, agent) ==> Barred(DbAfter(db, e), agent))
  {
    hide PublishJob;
    if PublishJob(db, e.row, e.version, e.printing).Commit? {
      Frames.PublishSwitches(db, e.row, e.version, e.printing);
    }
  }

  /** An agent that is off does nothing until a committed resume names it; a barred one does nothing at all. */
  lemma {:induction false} OffIdle(w: World, events: seq<Event>, agent: Id)
    requires Inv(w) && HonestRun(w, events) && Titled(w.db) && SwitchedOff(w.db, agent)
    requires Barred(w.db, agent) || Unresumed(w, events, agent)
    ensures Idle(w, events, agent)
    decreases |events|
  {
    hide RowSound, Chains.Chained, Apply, Honest, Works, Resumes, Barred, SwitchedOff, Titled;
    if events != [] {
      var e := events[0];
      forall row: nat | row < |w.db.jobs| && w.db.jobs[row].origin.agent == agent ensures !Works(w.db, e, row) {
        if Works(w.db, e, row) {
          WorkIsAuthorised(w.db, e, row);
        }
      }
      NewWorkIsAuthorised(w, e);
      StaysOff(w.db, e, agent);
      TitledStays(w.db, e);
      Step(w, e);
      ApplyDb(w, e);
      OffIdle(Apply(w, e), events[1..], agent);
    }
  }

  lemma ApplyDb(w: World, e: Event)
    requires w.db.Shaped()
    ensures Apply(w, e).db == DbAfter(w.db, e)
  {
    hide DbAfter, HistoryAfter;
  }

  /** From a committed pause until a committed resume naming the agent, no call is reserved for its rows, none of them is reopened
      or newly published, and nothing is enqueued for it. */
  lemma PausedIsIdle(w: World, agents: seq<Id>, single: bool, now: Instant, later: seq<Event>, agent: Id)
    requires Inv(w) && Titled(w.db) && agent in agents && Enable(w.db, agents, single, false, now).Commit?
    requires HonestRun(w, [DoEnable(agents, single, false, now)] + later)
    requires Inv(Apply(w, DoEnable(agents, single, false, now))) && HonestRun(Apply(w, DoEnable(agents, single, false, now)), later)
    requires Unresumed(Apply(w, DoEnable(agents, single, false, now)), later, agent)
    ensures Idle(Apply(w, DoEnable(agents, single, false, now)), later, agent)
  {
    hide RowSound, Chains.Chained, Honest, Enable, Run, HonestRun, Unresumed, Idle, HistoryAfter;
    Frames.EnableSwitches(w.db, agents, single, false, now, agent);
    TitledStays(w.db, DoEnable(agents, single, false, now));
    OffIdle(Apply(w, DoEnable(agents, single, false, now)), later, agent);
  }

  // ---- Spacing of publications ----

  /** The instant of an agent's last publication never goes back, and only its own publications move it. */
  lemma LastStays(db: Db, e: Event, agent: Id)
    requires db.Shaped() && agent in db.settings && db.settings[agent].lastPublishedAt.Some?
    ensures agent in DbAfter(db, e).settings && DbAfter(db, e).settings[agent].lastPublishedAt.Some?
    ensures DbAfter(db, e).settings[agent].lastPublishedAt.value >= db.settings[agent].lastPublishedAt.value
  {
    hide Enable, PublishJob, DbAfter;
    if e.DoEnable? {
      ControlledLast(db, e, agent);
    } else if e.DoPublish? {
      PublishedLast(db, e, agent);
    } else {
      Frames.SwitchesSame(db, e);
    }
  }

  lemma ControlledLast(db: Db, e: Event, agent: Id)
    requires db.Shaped() && e.DoEnable? && agent in db.settings
    ensures agent in DbAfter(db, e).settings && DbAfter(db, e).settings[agent].lastPublishedAt == db.settings[agent].lastPublishedAt
  {
    hide Enable, Settings.Valid;
    if Enable(db, e.agents, e.single, e.enabled, e.now).Commit? {
      Frames.EnableSwitches(db, e.agents, e.single, e.enabled, e.now, agent);
    }
  }

  lemma PublishedLast(db: Db, e: Event, agent: Id)
    requires db.Shaped() && e.DoPublish? && agent in db.settings && db.settings[agent].lastPublishedAt.Some?
    ensures agent in DbAfter(db, e).settings && DbAfter(db, e).settings[agent].lastPublishedAt.Some?
    ensures DbAfter(db, e).settings[agent].lastPublishedAt.value >= db.settings[agent].lastPublishedAt.value
  {
    hide PublishJob, SwitchedOff, SourceThere, Young, Live, Policy.Valid;
    if PublishJob(db, e.row, e.version, e.printing).Commit? {
      Frames.PublishSwitches(db, e.row, e.version, e.printing);
      if db.jobs[e.row].status != JobSucceeded {
        WorkIsAuthorised(db, e, e.row);
        assert e.printing.now in PolicyReadings(e);
        SpacingPositive(db.settings[db.jobs[e.row].origin.agent]);
      }
    }
  }

  lemma SpacingPositive(s: Settings)
    requires s.Valid()
    ensures s.policy.minSpacing >= 1
  {
  }

  lemma {:induction false} LastGrows(w: World, events: seq<Event>, agent: Id)
    requires Inv(w) && HonestRun(w, events) && agent in w.db.settings && w.db.settings[agent].lastPublishedAt.Some?
    ensures var after := Run(w, events).db;
            agent in after.settings && after.settings[agent].lastPublishedAt.Some?
            && after.settings[agent].lastPublishedAt.value >= w.db.settings[agent].lastPublishedAt.value
    decreases |events|
  {
    hide RowSound, Chains.Chained, Apply, Honest;
    if events != [] {
      LastStays(w.db, events[0], agent);
      Step(w, events[0]);
      ApplyDb(w, events[0]);
      LastGrows(Apply(w, events[0]), events[1..], agent);
    }
  }

  /** Any two publications of an agent in a run lie at least the spacing apart that is in force at the later one. */
  lemma PublicationsSpaced(w: World, first: Event, between: seq<Event>, second: Event, one: nat, two: nat)
    requires Inv(w) && first.DoPublish? && second.DoPublish? && Works(w.db, first, one)
    requires Honest(w, first) && Inv(Apply(w, first)) && HonestRun(Apply(w, first), between)
    requires var later := Run(Apply(w, first), between).db;
             Works(later, second, two) && later.jobs[two].origin.agent == w.db.jobs[one].origin.agent
    ensures var later, agent := Run(Apply(w, first), between).db, w.db.jobs[one].origin.agent;
            agent in later.settings
            && second.printing.now >= first.printing.now + later.settings[agent].policy.minSpacing * 1_000_000
  {
    hide RowSound, Chains.Chained, HistoryAfter, Honest, PublishJob, HonestRun, Run, SourceThere, Young, Live, Settings.Valid, QuotasFor;
    var agent := w.db.jobs[one].origin.agent;
    Frames.PublishSwitches(w.db, first.row, first.version, first.printing);
    LastGrows(Apply(w, first), between, agent);
    var later := Run(Apply(w, first), between).db;
    WorkIsAuthorised(later, second, two);
    assert second.printing.now in PolicyReadings(second);
  }

  // ---- Controls ----

  /** An agent whose account is live and whose settings can be scheduled. */
  predicate Runnable(db: Db, id: Id)
    requires id in db.accounts && id in db.settings
  {
    !db.accounts[id].disabled && db.settings[id].Valid() && (db.settings[id].remaining > 0 ==> db.settings[id].nextPostAt.Some?)
  }

  predicate Controllable(db: Db, id: Id, run: bool) {
    id in db.accounts && db.accounts[id].agent && id in db.settings && (run ==> Runnable(db, id))
  }

  /** What a control leaves of one agent's settings, named as often as it is. */
  ghost predicate Controlled(db: Db, after: Db, enabled: bool, now: Instant, id: Id, times: nat)
    requires id in db.settings
  {
    && id in after.settings
    && (times > 0 ==> id in db.accounts)
    && after.settings[id] ==
         if times == 0 || (enabled && !Runnable(db, id)) then db.settings[id]
         else if enabled then db.settings[id].(enabled := true, updatedAt := now)
         else db.settings[id].(enabled := false, updatedAt := now, pauseRevision := db.settings[id].pauseRevision + times)
  }

  /** A control commits exactly when every named agent is one with settings and, to resume a single one, when it can run. It
      turns the switch of each and counts each pause in its revision; a fleet-wide resume passes over the agents that cannot
      run; nothing else changes. */
  lemma {:induction false} ControlDecides(db: Db, agents: seq<Id>, single: bool, enabled: bool, now: Instant, id: Id)
    requires now != 0
    ensures var r := Enable(db, agents, single, enabled, now);
            && (r.Commit? <==> forall i :: 0 <= i < |agents| ==> Controllable(db, agents[i], single && enabled))
            && (r.Commit? ==>
                  && r.db == db.(settings := r.db.settings) && r.db.settings.Keys == db.settings.Keys
                  && (id in db.settings ==> Controlled(db, r.db, enabled, now, id, multiset(agents)[id]))
                  && r.result <= |agents| && (!enabled || single ==> r.result == |agents|))
    decreases agents
  {
    hide Settings.Valid, Controllable, Controlled, EnableOne;
    if agents == [] {
      UncontrolledSame(db, enabled, now, id);
    } else {
      var n := |agents| - 1;
      var front, last := agents[..n], agents[n];
      assert agents == front + [last];
      assert forall i :: 0 <= i < n ==> front[i] == agents[i];
      ControlDecides(db, front, single, enabled, now, id);
      ControlDecides(db, front, single, enabled, now, last);
      var before := Enable(db, front, single, enabled, now);
      if before.Commit? {
        OneControl(db, before.db, last, single, enabled, now, multiset(front)[last]);
        var r := EnableOne(before.db, last, single, enabled, now);
        if r.Commit? && id in db.settings && id != last {
          ControlledSame(db, before.db, r.db, enabled, now, id, multiset(front)[id]);
        }
      }
    }
  }

  lemma UncontrolledSame(db: Db, enabled: bool, now: Instant, id: Id)
    ensures id in db.settings ==> Controlled(db, db, enabled, now, id, 0)
  {
    hide Settings.Valid;
  }

  lemma ControlledSame(db: Db, before: Db, after: Db, enabled: bool, now: Instant, id: Id, times: nat)
    requires id in db.settings && Controlled(db, before, enabled, now, id, times)
    requires id in after.settings && after.settings[id] == before.settings[id]
    ensures Controlled(db, after, enabled, now, id, times)
  {
    hide Settings.Valid;
  }

  lemma OneControl(db: Db, done: Db, last: Id, single: bool, enabled: bool, now: Instant, times: nat)
    requires now != 0 && done == db.(settings := done.settings) && done.settings.Keys == db.settings.Keys
    requires last in db.settings ==> Controlled(db, done, enabled, now, last, times)
    ensures var r := EnableOne(done, last, single, enabled, now);
            && (r.Commit? <==> Controllable(db, last, single && enabled))
            && (r.Commit? ==>
                  && r.db == db.(settings := r.db.settings) && r.db.settings.Keys == db.settings.Keys
                  && Controlled(db, r.db, enabled, now, last, times + 1)
                  && r.result <= 1 && (!enabled || single ==> r.result == 1)
                  && forall id :: id in db.settings && id != last ==> r.db.settings[id] == done.settings[id])
  {
    if last in db.accounts && last in db.settings {
      Resettled(db.settings[last], now);
    }
    hide Settings.Valid;
  }

  /** A touched row that is switched on is as valid as it was. */
  lemma Resettled(s: Settings, now: Instant)
    requires now != 0
    ensures s.Valid() ==> s.(enabled := true, updatedAt := now).Valid()
  {
  }
}
