/** What new work answers: the children of a publication answer its very result, and an action's jobs the action. */
module Answers {
  import opened Basics
  import opened Policies
  import opened Attempts
  import opened Jobs
  import opened Eligibility
  import opened Admission
  import opened Tables
  import opened Transactions
  import opened Operations
  import opened Protocol
  import opened Effects
  import opened Growth
  import opened Changes
  import opened Histories
  import opened Invariants
  import opened Authority
  import Decisions
  import Frames
  import Retries
  import Selection

  /** The columns of a job that answers what a published job wrote: under a reply the conversation stays the parent's, and the
      reply is the one just written; under a post or a quote the new post is the conversation. */
  ghost predicate AnswersResult(parent: Job, o: Origin) {
    && o.kind == Continuation && o.actor == Some(parent.origin.agent) && o.agent != parent.origin.agent && o.output == OutputReply
    && o.root == parent.origin.root && o.depth == parent.origin.depth + 1 && o.sourceRepost.None?
    && o.sourcePost.Some? && o.cooldown == Some(CooldownKey(parent.origin.agent, o.agent, o.sourcePost.value, Continuation))
    && match parent.resultReply
       case Some(reply) =>
         o.sourcePost == parent.origin.sourcePost && o.sourceReply == Some(reply) && o.key == ActionKey(Continuation, reply)
       case None =>
         o.sourcePost == parent.resultPost && o.sourceReply.None? && o.key == ActionKey(Continuation, o.sourcePost.value)
  }

  // ---- The source of continuations ----

  /** The source a published job offers to others. */
  function OfferedBy(parent: Job, at: Instant): Source
    requires parent.resultReply.Some? || parent.resultPost.Some?
    requires parent.resultReply.Some? ==> parent.origin.sourcePost.Some?
  {
    match parent.resultReply
    case Some(reply) => Source(Continuation, reply, parent.origin.agent, parent.origin.sourcePost.value, Some(reply), None, at)
    case None => Source(Continuation, parent.resultPost.value, parent.origin.agent, parent.resultPost.value, None, None, at)
  }

  /** Rows reserved from an offered source answer the result. */
  lemma OfferAnswers(jobs: seq<Job>, i: nat, c: Candidate, parent: Job, root: Job, at: Instant, clock: Instant)
    requires parent.resultReply.Some? || parent.resultPost.Some?
    requires parent.resultReply.Some? ==> parent.origin.sourcePost.Some?
    requires i < |jobs| && Sealed(jobs, i, c, OfferedBy(parent, at), Child(parent, root), clock)
    requires root.origin.row == parent.origin.root && c.settings.agent != parent.origin.agent
    ensures AnswersResult(parent, jobs[i].origin) && jobs[i].origin.createdAt == clock
    ensures jobs[i].origin.expiresAt == at + c.settings.policy.sourceMaxAge * 1_000_000
  {
    hide Policy.Valid, Job.Valid, Allowance, Taken, Willing;
  }

  lemma RowsAnswer(db: Db, jobs: seq<Job>, parent: Job, root: Job, at: Instant, picks: seq<Pick>, clock: Instant)
    requires parent.resultReply.Some? || parent.resultPost.Some?
    requires parent.resultReply.Some? ==> parent.origin.sourcePost.Some?
    requires Admit(jobs, OfferedBy(parent, at), Child(parent, root), CandidatesOf(db, picks, parent.origin.agent), clock).Some?
    requires root.origin.row == parent.origin.root
    ensures var after := Admit(jobs, OfferedBy(parent, at), Child(parent, root), CandidatesOf(db, picks, parent.origin.agent), clock).value;
            forall i :: |jobs| <= i < |after| ==> AnswersResult(parent, after[i].origin) && after[i].origin.createdAt == clock
  {
    hide Admit, CandidatesOf, Sealed, SharedCaps, AnswersResult, OfferedBy;
    var cs := CandidatesOf(db, picks, parent.origin.agent);
    var source, line := OfferedBy(parent, at), Child(parent, root);
    var after := Admit(jobs, source, line, cs, clock).value;
    AdmitFacts(jobs, source, line, cs, clock);
    forall i | |jobs| <= i < |after| ensures AnswersResult(parent, after[i].origin) && after[i].origin.createdAt == clock {
      assert SealedBy(after, i, cs, source, line, clock);
      var c :| c in cs && Sealed(after, i, c, source, line, clock);
      CandidatesExactly(db, picks, parent.origin.agent, c);
      OfferAnswers(after, i, c, parent, root, at, clock);
    }
  }

  // ---- Publications ----

  /** What the writes of a publication offer. */
  lemma PrintedOffers(job: Job, p: Printing)
    requires job.resultPost.None? && job.resultReply.None? && (job.origin.output == OutputReply ==> job.origin.sourcePost.Some?)
    ensures var done := Printed(job, p);
            && done.origin == job.origin && (done.resultReply.Some? <==> job.origin.output == OutputReply)
            && (done.resultReply.Some? || done.resultPost.Some?)
            && (if job.origin.output == OutputReply then done.resultReply == Some(p.resultId) else done.resultPost == Some(p.resultId))
            && ChildSource(job, p) == OfferedBy(done, p.now)
  {
  }

  /** A fresh publication of a running job, with what was checked of its row and its root. */
  ghost predicate FreshlyPublished(db: Db, row: nat, version: int, p: Printing) {
    && db.Shaped() && row < |db.jobs| && Rooted(db.jobs, row)
    && db.jobs[row].status != JobSucceeded && PublishJob(db, row, version, p).Commit?
  }

  lemma PublishedRow(db: Db, row: nat, version: int, p: Printing)
    requires FreshlyPublished(db, row, version, p)
    ensures var job, after := db.jobs[row], PublishJob(db, row, version, p).db;
            && job.resultPost.None? && job.resultReply.None? && (job.origin.output == OutputReply ==> job.origin.sourcePost.Some?)
            && |db.jobs| <= |after.jobs| && after.jobs[row] == Printed(job, p)
            && job.Valid() && Inserted(db, after, job, p) && SourceValid(db, job.origin) && after.accounts == db.accounts
            && job.origin.createdAt <= p.now
  {
    hide PublishJob, Grew, Around, SourceValid, Attempt.Valid, Job.Leased;
    var job, after := db.jobs[row], PublishJob(db, row, version, p).db;
    PublishEffect(db, row, version, p);
    GrewRows(db.WithJob(row, Printed(job, p)), after, Some(job.origin.root));
    Frames.PublishSwitches(db, row, version, p);
  }

  /** Every row a publication adds answers the result just written. */
  lemma ChildrenAnswer(db: Db, row: nat, version: int, p: Printing)
    requires FreshlyPublished(db, row, version, p)
    ensures var after := PublishJob(db, row, version, p).db;
            && |db.jobs| <= |after.jobs|
            && forall i :: |db.jobs| <= i < |after.jobs| ==>
                 AnswersResult(after.jobs[row], after.jobs[i].origin) && after.jobs[i].origin.createdAt == p.admitted
  {
    hide PublishJob, AnswersResult, Admit, CandidatesOf, Printed, ChildSource, OfferedBy, Job.Valid, SourceValid, Inserted;
    PublishedRow(db, row, version, p);
    var job := db.jobs[row];
    PrintedOffers(job, p);
    var jobs := db.WithJob(row, Printed(job, p)).jobs;
    PublishedTable(db, row, version, p);
    PrintedRoot(db, row, p);
    RowsAnswer(db, jobs, Printed(job, p), jobs[job.origin.root], p.now, p.picks, p.admitted);
  }

  lemma PrintedRoot(db: Db, row: nat, p: Printing)
    requires db.Shaped() && row < |db.jobs| && Rooted(db.jobs, row)
    ensures db.WithJob(row, Printed(db.jobs[row], p)).jobs[db.jobs[row].origin.root].origin.row == db.jobs[row].origin.root
  {
  }

  lemma PublishedTable(db: Db, row: nat, version: int, p: Printing)
    requires FreshlyPublished(db, row, version, p)
    ensures var job := db.jobs[row];
            var jobs := db.WithJob(row, Printed(job, p)).jobs;
            Admit(jobs, ChildSource(job, p), Child(Printed(job, p), jobs[job.origin.root]), CandidatesOf(db, p.picks, job.origin.agent), p.admitted)
            == Some(PublishJob(db, row, version, p).db.jobs)
  {
    hide Admit, CandidatesOf, Printed, ChildSource, StandingOf, Authorised, StillAuthorised;
  }

  /** What a child answers is there in the database the publication leaves: the child would not be cancelled for a lost source. */
  lemma ChildrenHaveSources(db: Db, row: nat, version: int, p: Printing, i: nat)
    requires FreshlyPublished(db, row, version, p)
    requires |db.jobs| <= i < |PublishJob(db, row, version, p).db.jobs|
    ensures SourceThere(PublishJob(db, row, version, p).db, PublishJob(db, row, version, p).db.jobs[i].origin)
  {
    hide PublishJob, Printed, SwitchedOff, Open, Young, Live, Settings.Valid;
    var e := DoPublish(row, version, p);
    ChildrenAnswer(db, row, version, p);
    PublishedRow(db, row, version, p);
    PrintedOffers(db.jobs[row], p);
    assert Works(db, e, row);
    WorkIsAuthorised(db, e, row);
    AgentThere(db, db.jobs[row].origin.agent);
    ResultThere(db, PublishJob(db, row, version, p).db, db.jobs[row], p, PublishJob(db, row, version, p).db.jobs[i].origin);
  }

  lemma AgentThere(db: Db, agent: Id)
    requires !SwitchedOff(db, agent)
    ensures agent in db.accounts && !db.accounts[agent].disabled
  {
  }

  lemma ResultThere(db: Db, after: Db, job: Job, p: Printing, o: Origin)
    requires job.Valid() && Inserted(db, after, job, p) && after.accounts == db.accounts && AnswersResult(Printed(job, p), o)
    requires job.resultPost.None? && job.resultReply.None?
    requires job.origin.agent in db.accounts && !db.accounts[job.origin.agent].disabled
    requires job.origin.kind != Scheduled ==> SourceThere(db, job.origin)
    ensures SourceThere(after, o)
  {
  }

  /** Deriving the source again from the published job's own record gives the very source its children were reserved from. */
  lemma RecordOffersTheSame(db: Db, row: nat, version: int, p: Printing)
    requires FreshlyPublished(db, row, version, p)
    ensures var after := PublishJob(db, row, version, p).db;
            && row < |after.jobs| && (after.jobs[row].resultReply.Some? || after.jobs[row].resultPost.Some?)
            && (after.jobs[row].resultReply.Some? ==> after.jobs[row].origin.sourcePost.Some?)
            && ResultSource(after, after.jobs[row]) == Some(OfferedBy(after.jobs[row], p.now))
  {
    hide PublishJob, SwitchedOff, Open, Young, Live, Settings.Valid;
    var e := DoPublish(row, version, p);
    PublishedRow(db, row, version, p);
    assert Works(db, e, row);
    WorkIsAuthorised(db, e, row);
    RecordRead(db, PublishJob(db, row, version, p).db, db.jobs[row], p);
  }

  lemma RecordRead(db: Db, after: Db, job: Job, p: Printing)
    requires job.Valid() && Inserted(db, after, job, p) && job.origin.createdAt <= p.now
    requires job.resultPost.None? && job.resultReply.None? && (job.origin.output == OutputReply ==> job.origin.sourcePost.Some?)
    requires job.origin.kind != Scheduled ==> SourceThere(db, job.origin)
    ensures var done := Printed(job, p);
            && (done.resultReply.Some? || done.resultPost.Some?) && (done.resultReply.Some? ==> done.origin.sourcePost.Some?)
            && ResultSource(after, done) == Some(OfferedBy(done, p.now))
  {
  }

  // ---- Continuations later on ----

  /** A later continuation offers the source its parent's record names, so its rows answer the same result. */
  lemma ContinuationsAnswer(db: Db, row: nat, picks: seq<Pick>, now: Instant)
    requires db.Shaped() && row < |db.jobs| && Rooted(db.jobs, row) && db.jobs[row].Valid() && Continue(db, row, picks, now).Commit?
    ensures var after := Continue(db, row, picks, now).db;
            && |db.jobs| <= |after.jobs|
            && forall i :: |db.jobs| <= i < |after.jobs| ==>
                 AnswersResult(db.jobs[row], after.jobs[i].origin) && after.jobs[i].origin.createdAt == now
  {
    hide Admit, CandidatesOf, Proven, ResultSource, AnswersResult, OfferedBy, Job.Valid;
    var parent := db.jobs[row];
    var root := db.jobs[parent.origin.root];
    var source := ResultSource(db, parent).value;
    DerivedIsOffered(db, row);
    if AccountLive(db, source.actor) {
      RowsAnswer(db, db.jobs, parent, root, source.createdAt, picks, now);
    } else {
      NobodyAdmitted(db.jobs, source, Child(parent, root), now);
    }
  }

  lemma DerivedIsOffered(db: Db, row: nat)
    requires db.Shaped() && row < |db.jobs| && db.jobs[row].Valid() && Proven(db, row) && ResultSource(db, db.jobs[row]).Some?
    ensures var parent, source := db.jobs[row], ResultSource(db, db.jobs[row]).value;
            && source.actor == parent.origin.agent
            && (parent.resultReply.Some? || parent.resultPost.Some?) && (parent.resultReply.Some? ==> parent.origin.sourcePost.Some?)
            && source == OfferedBy(parent, source.createdAt)
  {
    hide ValidOrigin;
  }

  /** What a published job wrote is still there, under a conversation that is still there. */
  predicate ResultRemains(db: Db, parent: Job) {
    && parent.finishedAt.Some?
    && match parent.resultReply
       case Some(r) =>
         && parent.origin.output == OutputReply && r in db.replies
         && var reply := db.replies[r];
         && !reply.deleted && reply.author == parent.origin.agent && parent.origin.sourcePost == Some(reply.post)
         && reply.post in db.posts && !db.posts[reply.post].deleted
         && parent.origin.createdAt <= reply.createdAt <= parent.finishedAt.value
       case None =>
         && parent.origin.output != OutputReply && parent.resultPost.Some? && parent.resultPost.value in db.posts
         && var post := db.posts[parent.resultPost.value];
         && !post.deleted && post.author == parent.origin.agent
         && (parent.origin.output == OutputPost ==> post.quoted.None?)
         && (parent.origin.output == OutputQuote ==> post.quoted.Some? && post.quoted == parent.origin.sourcePost)
         && parent.origin.createdAt <= post.createdAt <= parent.finishedAt.value
  }

  /** In a reachable state work is continued exactly from a succeeded job whose result and conversation are still there. */
  lemma ContinuationDecides(w: World, row: nat, picks: seq<Pick>, now: Instant)
    requires Inv(w) && row < |w.db.jobs|
    requires forall i :: 0 <= i < |picks| ==> Decisions.PickDrawn(w.db, picks[i])
    requires var job := w.db.jobs[row]; job.resultPost != Some(0) && job.resultReply != Some(0) && job.origin.sourcePost != Some(0)
    ensures Continue(w.db, row, picks, now).Commit? <==> w.db.jobs[row].status == JobSucceeded && ResultRemains(w.db, w.db.jobs[row])
  {
    hide RowSound, Chains.Chained, Admit, CandidatesOf, Proven, ResultSource, ResultRemains, Job.Valid, OfferedBy, Decisions.PickDrawn;
    var parent := w.db.jobs[row];
    Decisions.RowFacts(w, row);
    RowsAligned(w, row);
    ProvenExactly(w, row);
    if parent.status == JobSucceeded {
      RemainsExactly(w.db, parent);
      if ResultRemains(w.db, parent) {
        DerivedIsOffered(w.db, row);
        ContinuesWell(w, row, picks, now);
      }
    }
  }

  lemma ProvenExactly(w: World, row: nat)
    requires Inv(w) && row < |w.db.jobs|
    ensures Proven(w.db, row) <==> w.db.jobs[row].status == JobSucceeded
  {
    hide Job.Valid, Fenced, Sequenced, Accounted, Chains.Chained, Measured;
    Retries.Sound(w, row);
    if w.db.jobs[row].status == JobSucceeded {
      var n := |w.db.attempts[row]|;
      assert Recorded(w.db.attempts[row][n - 1], row, n - 1);
    }
  }

  lemma RemainsExactly(db: Db, parent: Job)
    requires parent.Valid() && parent.status == JobSucceeded
    ensures ResultSource(db, parent).Some? <==> ResultRemains(db, parent)
  {
    hide ValidOrigin;
  }

  lemma ContinuesWell(w: World, row: nat, picks: seq<Pick>, now: Instant)
    requires Inv(w) && row < |w.db.jobs| && Rooted(w.db.jobs, row) && w.db.jobs[row].status == JobSucceeded
    requires forall i :: 0 <= i < |picks| ==> Decisions.PickDrawn(w.db, picks[i])
    requires var job := w.db.jobs[row]; job.resultPost != Some(0) && job.resultReply != Some(0) && job.origin.sourcePost != Some(0)
    requires ResultSource(w.db, w.db.jobs[row]).Some?
    requires var parent, source := w.db.jobs[row], ResultSource(w.db, w.db.jobs[row]).value;
             && source.actor == parent.origin.agent
             && (parent.resultReply.Some? || parent.resultPost.Some?) && (parent.resultReply.Some? ==> parent.origin.sourcePost.Some?)
             && source == OfferedBy(parent, source.createdAt)
    ensures var parent, source := w.db.jobs[row], ResultSource(w.db, w.db.jobs[row]).value;
            var candidates := if AccountLive(w.db, source.actor) then CandidatesOf(w.db, picks, source.actor) else [];
            && parent.origin.root < |w.db.jobs|
            && Admit(w.db.jobs, source, Child(parent, w.db.jobs[parent.origin.root]), candidates, now).Some?
  {
    hide RowSound, Chains.WithinLimit, Admit, CandidatesOf, ResultSource, Job.Valid, Decisions.PickDrawn;
    var parent, source := w.db.jobs[row], ResultSource(w.db, w.db.jobs[row]).value;
    Decisions.RowFacts(w, row);
    Decisions.RowFacts(w, parent.origin.root);
    Decisions.AgentNamed(parent);
    Decisions.AgentNamed(w.db.jobs[parent.origin.root]);
    assert Chains.Linked(w.db.jobs, row);
    HookDrawn(w.db, w.db, picks, source.actor, source);
    var candidates := if AccountLive(w.db, source.actor) then CandidatesOf(w.db, picks, source.actor) else [];
    Selection.AdmitSucceeds(w.db.jobs, source, Child(parent, w.db.jobs[parent.origin.root]), candidates, now);
  }

  // ---- Actions ----

  /** The columns of a job that answers a human action on a target post, or the post the action wrote. */
  predicate AnswersAction(kind: Trigger, action: Id, actor: Id, target: Option<Id>, o: Origin) {
    && o.kind == kind && o.key == ActionKey(kind, action) && o.actor == Some(actor) && o.agent != actor && o.output == OutputReply
    && o.root == o.row && o.depth == 0
    && o.sourcePost == (if kind == ReplyTrigger || kind == RepostTrigger then target else Some(action))
    && o.sourceReply == (if kind == ReplyTrigger then Some(action) else None)
    && o.sourceRepost == (if kind == RepostTrigger then Some(action) else None)
    && o.sourcePost.Some? && o.cooldown == Some(CooldownKey(actor, o.agent, o.sourcePost.value, kind))
  }

  /** Every row an action's hook adds answers that action, and its source is there while the author of the post it concerns has an account. */
  lemma ActionsAnswered(db: Db, kind: Trigger, action: Id, actor: Id, target: Option<Id>, content: Content, at: Instant,
                        picks: seq<Pick>, now: Instant, i: nat)
    requires Act(db, kind, action, actor, target, content, at, picks, now).Commit?
    requires |db.jobs| <= i < |Act(db, kind, action, actor, target, content, at, picks, now).db.jobs|
    ensures var after := Act(db, kind, action, actor, target, content, at, picks, now).db;
            var o := after.jobs[i].origin;
            && AnswersAction(kind, action, actor, target, o) && o.createdAt == now
            && (o.sourcePost.value in after.posts && AccountLive(after, after.posts[o.sourcePost.value].author) ==> SourceThere(after, o))
  {
    hide Admit, CandidatesOf, Sealed, SharedCaps, SocialSource, WriteAction, SourceThere;
    var written := WriteAction(db, kind, action, actor, target, content, at).value;
    var source := SocialSource(written, kind, action).value;
    var cs := CandidatesOf(written, picks, actor);
    WrittenSource(db, kind, action, actor, target, content, at);
    AdmitFacts(written.jobs, source, Direct, cs, now);
    var after := Act(db, kind, action, actor, target, content, at, picks, now).db;
    assert SealedBy(after.jobs, i, cs, source, Direct, now);
    var c :| c in cs && Sealed(after.jobs, i, c, source, Direct, now);
    CandidatesExactly(written, picks, actor, c);
    SealedAnswers(after.jobs, i, c, kind, action, actor, target, source, now);
    ActionThere(written, after, kind, action, actor, target, source, after.jobs[i].origin);
  }

  /** The source read back after a write is the action just written. */
  lemma WrittenSource(db: Db, kind: Trigger, action: Id, actor: Id, target: Option<Id>, content: Content, at: Instant)
    requires WriteAction(db, kind, action, actor, target, content, at).Some?
    ensures var written := WriteAction(db, kind, action, actor, target, content, at).value;
            && written.jobs == db.jobs && written.accounts == db.accounts
            && SocialSource(written, kind, action)
               == Some(Source(kind, action, actor, if kind == ReplyTrigger || kind == RepostTrigger then target.value else action,
                              if kind == ReplyTrigger then Some(action) else None, if kind == RepostTrigger then Some(action) else None, at))
            && (kind == ReplyTrigger || kind == RepostTrigger ==> target.Some?) && kind != Scheduled && kind != Continuation
  {
    hide AlreadyReposted;
  }

  lemma SealedAnswers(jobs: seq<Job>, i: nat, c: Candidate, kind: Trigger, action: Id, actor: Id, target: Option<Id>, source: Source, clock: Instant)
    requires i < |jobs| && Sealed(jobs, i, c, source, Direct, clock) && c.settings.agent != actor
    requires kind == ReplyTrigger || kind == RepostTrigger ==> target.Some?
    requires source == Source(kind, action, actor, if kind == ReplyTrigger || kind == RepostTrigger then target.value else action,
                              if kind == ReplyTrigger then Some(action) else None, if kind == RepostTrigger then Some(action) else None,
                              source.createdAt)
    ensures AnswersAction(kind, action, actor, target, jobs[i].origin) && jobs[i].origin.createdAt == clock
  {
    hide Policy.Valid, Job.Valid, Allowance, Taken, Willing;
  }

  lemma ActionThere(written: Db, after: Db, kind: Trigger, action: Id, actor: Id, target: Option<Id>, source: Source, o: Origin)
    requires SocialSource(written, kind, action) == Some(source) && source.actor == actor && AnswersAction(kind, action, actor, target, o)
    requires o.sourcePost == Some(source.post) && kind != Scheduled && kind != Continuation
    requires after.posts == written.posts && after.replies == written.replies && after.reposts == written.reposts
    requires after.accounts == written.accounts && AccountLive(written, actor)
    ensures o.sourcePost.value in after.posts && AccountLive(after, after.posts[o.sourcePost.value].author) ==> SourceThere(after, o)
  {
  }

  /** What a person may write: a post, or a quote, a reply or a repost of a post that is there, under an unused id and, for a
      repost, once. */
  predicate Writable(db: Db, kind: Trigger, action: Id, actor: Id, target: Option<Id>) {
    && (target.Some? ==> target.value in db.posts && !db.posts[target.value].deleted)
    && match kind
       case HumanPost => target.None? && action !in db.posts
       case QuoteTrigger => target.Some? && action !in db.posts
       case ReplyTrigger => target.Some? && action !in db.replies
       case RepostTrigger =>
         && target.Some? && action !in db.reposts
         && forall id :: id in db.reposts && db.reposts[id].account == actor ==> db.reposts[id].post != target.value
       case _ => false
  }

  /** The content tables after the action. */
  ghost predicate Written(db: Db, after: Db, kind: Trigger, action: Id, actor: Id, target: Option<Id>, content: Content, at: Instant)
    requires kind == ReplyTrigger || kind == RepostTrigger ==> target.Some?
  {
    && after.posts == (if kind == HumanPost || kind == QuoteTrigger then db.posts[action := Post(actor, target, false, at, content)] else db.posts)
    && after.replies == (if kind == ReplyTrigger then db.replies[action := Reply(target.value, actor, false, at, content)] else db.replies)
    && after.reposts == (if kind == RepostTrigger then db.reposts[action := Repost(target.value, actor, at)] else db.reposts)
    && after.accounts == db.accounts && after.settings == db.settings
  }

  /** A person with an account may do exactly what is writable; the action and what its hook reserves are kept together. */
  lemma ActionDecides(db: Db, kind: Trigger, action: Id, actor: Id, target: Option<Id>, content: Content, at: Instant,
                      picks: seq<Pick>, now: Instant)
    requires action != 0 && actor != 0 && target != Some(0)
    requires forall i :: 0 <= i < |picks| ==> Decisions.PickDrawn(db, picks[i])
    ensures var r := Act(db, kind, action, actor, target, content, at, picks, now);
            && (r.Commit? <==> AccountLive(db, actor) && !db.accounts[actor].agent && Writable(db, kind, action, actor, target))
            && (r.Commit? ==>
                  && (kind == ReplyTrigger || kind == RepostTrigger ==> target.Some?)
                  && Written(db, r.db, kind, action, actor, target, content, at) && |db.jobs| <= |r.db.jobs| && r.db.jobs[..|db.jobs|] == db.jobs)
  {
    hide Admit, CandidatesOf, SocialSource, WriteAction, Writable, Decisions.PickDrawn;
    WritableExactly(db, kind, action, actor, target, content, at);
    if WriteAction(db, kind, action, actor, target, content, at).Some? {
      var written := WriteAction(db, kind, action, actor, target, content, at).value;
      WrittenSource(db, kind, action, actor, target, content, at);
      var source := SocialSource(written, kind, action).value;
      var cs := CandidatesOf(written, picks, actor);
      HookDrawn(db, written, picks, actor, source);
      Selection.AdmitSucceeds(written.jobs, source, Direct, cs, now);
      AdmitFacts(written.jobs, source, Direct, cs, now);
    }
  }

  lemma WritableExactly(db: Db, kind: Trigger, action: Id, actor: Id, target: Option<Id>, content: Content, at: Instant)
    ensures WriteAction(db, kind, action, actor, target, content, at).Some? <==> Writable(db, kind, action, actor, target)
    ensures var r := WriteAction(db, kind, action, actor, target, content, at);
            r.Some? ==>
              && (kind == ReplyTrigger || kind == RepostTrigger ==> target.Some?)
              && Written(db, r.value, kind, action, actor, target, content, at) && r.value.jobs == db.jobs && r.value.attempts == db.attempts
  {
  }

  lemma HookDrawn(db: Db, written: Db, picks: seq<Pick>, actor: Id, source: Source)
    requires written.settings == db.settings && written.accounts == db.accounts && source.actor == actor
    requires forall i :: 0 <= i < |picks| ==> Decisions.PickDrawn(db, picks[i])
    ensures forall c :: c in CandidatesOf(written, picks, actor) ==> Selection.WellDrawn(c, source)
  {
    hide CandidatesOf, Settings.Valid;
    forall c | c in CandidatesOf(written, picks, actor) ensures Selection.WellDrawn(c, source) {
      CandidatesExactly(written, picks, actor, c);
      var i :| 0 <= i < |picks| && TakesTurn(written, picks[i], actor, c);
      assert Decisions.PickDrawn(db, picks[i]);
    }
  }
}
