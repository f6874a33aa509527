/** Transactions that surround a job's execution: cleanup, source removal, operator controls, scheduling and enqueueing. */
module Operations {
  import opened Basics
  import opened Zones
  import opened Policies
  import opened Attempts
  import opened Jobs
  import opened Eligibility
  import opened Admission
  import opened Tables
  import opened Transactions
  import Schedule

  // ---- Expiry ----

  predicate Expirable(db: Db, row: nat, cutoff: Instant) {
    row < |db.jobs| && db.jobs[row].Active() && db.jobs[row].origin.expiresAt <= cutoff
  }

  /** Skip every selected row that is past its expiry at the second clock reading; the result counts them. */
  function Expire(db: Db, rows: seq<nat>, cutoff: Instant, now: Instant): Tx<nat>
    decreases rows
  {
    if rows == [] then Commit(db, 0)
    else match Expire(db, rows[..|rows| - 1], cutoff, now)
      case Abort => Abort
      case Commit(done, count) =>
        var row := rows[|rows| - 1];
        if !Expirable(done, row, cutoff) || now < done.jobs[row].origin.expiresAt then Commit(done, count)
        else Put(done, row, SkipExpired(done.jobs[row], now), count + 1)
  }

  // ---- Source removal ----

  predicate SourceGone(db: Db, o: Origin) {
    || (o.sourcePost.Some? && o.sourcePost.value in db.posts && db.posts[o.sourcePost.value].deleted)
    || (o.sourceReply.Some? && o.sourceReply.value in db.replies && db.replies[o.sourceReply.value].deleted)
    || (o.kind == RepostTrigger && o.sourceRepost.None?)
  }

  predicate Removable(db: Db, row: nat, post: Id) {
    row < |db.jobs| && db.jobs[row].Active() && db.jobs[row].origin.sourcePost == Some(post) && SourceGone(db, db.jobs[row].origin)
  }

  /** End every selected row of a conversation whose source is gone; the result counts them. */
  function CancelRemoved(db: Db, post: Id, rows: seq<nat>, now: Instant): Tx<nat>
    decreases rows
  {
    if rows == [] then Commit(db, 0)
    else match CancelRemoved(db, post, rows[..|rows| - 1], now)
      case Abort => Abort
      case Commit(done, count) =>
        var row := rows[|rows| - 1];
        if !Removable(done, row, post) then Commit(done, count)
        else Put(done, row, Invalidate(done.jobs[row], done.jobs[row].lease, now), count + 1)
  }

  function RemovePost(db: Db, post: Id, rows: seq<nat>, now: Instant): Tx<nat> {
    if post !in db.posts || db.posts[post].deleted then Abort
    else CancelRemoved(db.(posts := db.posts[post := db.posts[post].(deleted := true)]), post, rows, now)
  }

  function RemoveReply(db: Db, reply: Id, rows: seq<nat>, now: Instant): Tx<nat> {
    if reply !in db.replies || db.replies[reply].deleted then Abort
    else
      var parent := db.replies[reply].post;
      if parent !in db.posts || db.posts[parent].deleted then Abort
      else CancelRemoved(db.(replies := db.replies[reply := db.replies[reply].(deleted := true)]), parent, rows, now)
  }

  /** Deleting a repost row clears every reference to it. */
  function Detach(job: Job, repost: Id): Job {
    if job.origin.sourceRepost == Some(repost) then job.(origin := job.origin.(sourceRepost := None)) else job
  }

  function Cleared(db: Db, repost: Id): Db {
    db.(reposts := db.reposts - {repost}, jobs := seq(|db.jobs|, i requires 0 <= i < |db.jobs| => Detach(db.jobs[i], repost)))
  }

  /** Whether the account's repost of the post is still there under the id it was given. */
  predicate Reposted(db: Db, repost: Id, post: Id) {
    repost in db.reposts && db.reposts[repost].post == post
  }

  function Unreposted(db: Db, repost: Id, post: Id): Db {
    if Reposted(db, repost, post) then Cleared(db, repost) else db
  }

  /** Withdrawing a repost that is gone already deletes nothing, and still cleans up the post's jobs. */
  function RemoveRepost(db: Db, repost: Id, post: Id, rows: seq<nat>, now: Instant): Tx<nat> {
    if post !in db.posts || db.posts[post].deleted then Abort
    else CancelRemoved(Unreposted(db, repost, post), post, rows, now)
  }

  // ---- Operator controls ----

  /** Pausing advances the revision, even of an agent already paused; resuming requires usable settings. */
  function EnableOne(db: Db, id: Id, single: bool, enabled: bool, now: Instant): Tx<nat> {
    if id !in db.accounts || !db.accounts[id].agent || id !in db.settings then Abort
    else
      var s := db.settings[id];
      if enabled && (db.accounts[id].disabled || !s.Valid() || !s.Ready()) then
        if single then Abort else Commit(db, 0)
      else
        var changed := s.(enabled := enabled, pauseRevision := if enabled then s.pauseRevision else s.pauseRevision + 1, updatedAt := now);
        Commit(db.(settings := db.settings[id := changed]), 1)
  }

  function Enable(db: Db, agents: seq<Id>, single: bool, enabled: bool, now: Instant): Tx<nat>
    decreases agents
  {
    if agents == [] then Commit(db, 0)
    else match Enable(db, agents[..|agents| - 1], single, enabled, now)
      case Abort => Abort
      case Commit(done, count) =>
        match EnableOne(done, agents[|agents| - 1], single, enabled, now)
        case Abort => Abort
        case Commit(after, one) => Commit(after, count + one)
  }

  function SetPolicy(db: Db, agent: Id, policy: Policy, now: Instant): Tx<()> {
    if !policy.Valid() || agent !in db.accounts || !db.accounts[agent].agent || agent !in db.settings then Abort
    else match Schedule.ChangePolicy(db.settings[agent], policy, now)
      case None => Abort
      case Some(changed) => Commit(db.(settings := db.settings[agent := changed]), ())
  }

  // ---- Scheduling ----

  datatype Visit = Ignored | Invalid | Idle | SlotDenied | Enqueued

  function SlotJob(row: nat, uuid: nat, s: Settings, slot: Schedule.Slot, now: Instant): Job {
    Job(Origin(row, uuid, s.agent, s.personaVersion, Scheduled, SlotKey(slot.at), None, None, None, None, None,
               OutputPost, row, 0, s.policy.maxDepth, s.policy.maxJobs, now, slot.expiresAt),
        Pending, now, 0, None, None, None, None, NoCode, None)
  }

  /** One locked agent's scheduling pass: persist the advanced schedule and enqueue at most one job. */
  function ScheduleAgent(db: Db, agent: Id, now: Instant, draw: Schedule.Draw, uuid: nat): Tx<Visit> {
    if agent !in db.accounts || agent !in db.settings then Abort
    else
      var s := db.settings[agent];
      if db.accounts[agent].disabled || !s.enabled then Commit(db, Ignored)
      else
        var touched := db.(settings := db.settings[agent := s.(updatedAt := now)]);
        if !db.accounts[agent].agent || !s.Valid() then Commit(touched, Invalid)
        else match Schedule.Advance(s, now, draw)
          case None => Commit(touched, Invalid)
          case Some(advanced) =>
            var next := advanced.settings;
            var kept := s.(updatedAt := now, nextPostAt := next.nextPostAt, scheduleDate := next.scheduleDate, remaining := next.remaining);
            var moved := db.(settings := db.settings[agent := kept]);
            if advanced.due.None? then Commit(moved, Idle)
            else
              var job := SlotJob(|db.jobs|, uuid, s, advanced.due.value, now);
              if |Members(db.jobs, SlotDay(s, now))| >= s.policy.postCap || Members(db.jobs, Recent(s.agent, now - s.policy.Spacing())) != {} then
                Commit(moved, SlotDenied)
              else if !job.Valid() then Abort
              else if Taken(db.jobs, s.agent, job.origin.key) then Commit(moved, SlotDenied)
              else Commit(moved.WithRows(db.jobs + [job]), Enqueued)
  }

  function SlotDay(s: Settings, now: Instant): Group
    requires s.policy.zone.Valid()
  {
    var (start, end) := LocalDay(s.policy.zone, now);
    Daily(s.agent, true, start, end)
  }

  // ---- Enqueueing ----

  /** The canonical source of a social action. */
  function SocialSource(db: Db, kind: Trigger, action: Id): Option<Source> {
    var target :=
      if kind == ReplyTrigger && action in db.replies then Some(db.replies[action].post)
      else if kind == RepostTrigger && action in db.reposts then Some(db.reposts[action].post)
      else if kind == HumanPost || kind == QuoteTrigger then Some(action)
      else None;
    if target.None? || target.value !in db.posts || db.posts[target.value].deleted then None
    else
      var post := db.posts[target.value];
      match kind
      case ReplyTrigger =>
        var reply := db.replies[action];
        if reply.deleted then None else Some(Source(kind, action, reply.author, target.value, Some(action), None, reply.createdAt))
      case RepostTrigger =>
        Some(Source(kind, action, db.reposts[action].account, target.value, None, Some(action), db.reposts[action].createdAt))
      case _ =>
        if (kind == QuoteTrigger) != post.quoted.Some? then None
        else Some(Source(kind, action, post.author, action, None, None, post.createdAt))
  }

  /** An account has at most one repost of a post; repeating it changes nothing. */
  predicate AlreadyReposted(db: Db, account: Id, post: Id) {
    exists id :: id in db.reposts && db.reposts[id].account == account && db.reposts[id].post == post
  }

  /** The row a human action writes. */
  function WriteAction(db: Db, kind: Trigger, action: Id, actor: Id, target: Option<Id>, content: Content, at: Instant): Option<Db> {
    if target.Some? && (target.value !in db.posts || db.posts[target.value].deleted) then None
    else match kind
      case HumanPost =>
        if action in db.posts || target.Some? then None else Some(db.(posts := db.posts[action := Post(actor, None, false, at, content)]))
      case QuoteTrigger =>
        if action in db.posts || target.None? then None else Some(db.(posts := db.posts[action := Post(actor, target, false, at, content)]))
      case ReplyTrigger =>
        if action in db.replies || target.None? then None
        else Some(db.(replies := db.replies[action := Reply(target.value, actor, false, at, content)]))
      case RepostTrigger =>
        if action in db.reposts || target.None? || AlreadyReposted(db, actor, target.value) then None
        else Some(db.(reposts := db.reposts[action := Repost(target.value, actor, at)]))
      case _ => None
  }

  function WithAdmitted(db: Db, rows: Option<seq<Job>>): Tx<()>
    requires rows.Some? ==> |db.jobs| <= |rows.value|
  {
    if rows.None? then Abort else Commit(db.WithRows(rows.value), ())
  }

  /** A human action and its enqueue hook, in one transaction. */
  function Act(db: Db, kind: Trigger, action: Id, actor: Id, target: Option<Id>, content: Content, at: Instant,
               picks: seq<Pick>, now: Instant): Tx<()> {
    if actor !in db.accounts || db.accounts[actor].agent || db.accounts[actor].disabled then Abort
    else match WriteAction(db, kind, action, actor, target, content, at)
      case None => Abort
      case Some(written) =>
        match SocialSource(written, kind, action)
        case None => Abort
        case Some(source) =>
          if source.actor != actor then Abort
          else WithAdmitted(written, Admit(written.jobs, source, Direct, CandidatesOf(written, picks, actor), now))
  }

  /** Whether a succeeded parent's own record proves the content a continuation would respond to. */
  predicate Proven(db: Db, row: nat)
    requires row < |db.jobs| && db.Shaped()
  {
    var parent := db.jobs[row];
    && parent.status == JobSucceeded && parent.published.Some? && parent.finishedAt.Some?
    && 1 <= parent.published.value <= |db.attempts[row]|
    && var attempt := db.attempts[row][parent.published.value - 1];
    && attempt.job == parent.origin.row && attempt.status == Succeeded && attempt.lease == parent.lease
    && attempt.finishedAt.Some? && attempt.finishedAt.value <= parent.finishedAt.value && attempt.startedAt >= parent.availableAt
  }

  function ResultSource(db: Db, parent: Job): Option<Source> {
    var kind := match parent.origin.output
      case OutputReply => ReplyTrigger
      case OutputQuote => QuoteTrigger
      case OutputPost => HumanPost;
    var action := if parent.origin.output == OutputReply then parent.resultReply else parent.resultPost;
    if action.None? then None
    else
      var source :- SocialSource(db, kind, action.value);
      if source.actor != parent.origin.agent || source.createdAt < parent.origin.createdAt
         || (parent.finishedAt.Some? && source.createdAt > parent.finishedAt.value) then None
      else if parent.origin.output == OutputReply && parent.origin.sourcePost != Some(source.post) then None
      else if parent.origin.output == OutputQuote && (parent.origin.sourcePost.None? || db.posts[source.post].quoted != parent.origin.sourcePost) then None
      else Some(source.(kind := Continuation))
  }

  /** Enqueue the continuations of a published job from its persisted provenance alone. */
  function Continue(db: Db, row: nat, picks: seq<Pick>, now: Instant): Tx<()>
    requires db.Shaped()
  {
    if row >= |db.jobs| || !Proven(db, row) || db.jobs[row].origin.root >= |db.jobs| then Abort
    else match ResultSource(db, db.jobs[row])
      case None => Abort
      case Some(source) =>
        var candidates := if AccountLive(db, source.actor) then CandidatesOf(db, picks, source.actor) else [];
        WithAdmitted(db, Admit(db.jobs, source, Child(db.jobs[row], db.jobs[db.jobs[row].origin.root]), candidates, now))
  }
}
