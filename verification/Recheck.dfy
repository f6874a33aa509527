/** The execution recheck read column by column: exactly which retained reservations a job may stand behind. */
module Recheck {
  import opened Basics
  import opened Zones
  import opened Policies
  import opened Attempts
  import opened Jobs
  import opened Eligibility
  import Schedule

  /** Created before, or at the same instant with a smaller id. */
  predicate Ahead(a: Origin, b: Origin) {
    a.createdAt < b.createdAt || (a.createdAt == b.createdAt && a.uuid < b.uuid)
  }

  /** The agent's posts, or its responses, created within a day's bounds and not behind the job. */
  function DayRank(jobs: seq<Job>, o: Origin, day: (Instant, Instant)): set<nat> {
    set i: nat | i < |jobs| && jobs[i].origin.agent == o.agent && (jobs[i].origin.output == OutputPost) == (o.output == OutputPost)
                 && day.0 <= jobs[i].origin.createdAt < day.1 && !Ahead(o, jobs[i].origin)
  }

  function ConversationRank(jobs: seq<Job>, o: Origin): set<nat> {
    set i: nat | i < |jobs| && o.sourcePost.Some? && jobs[i].origin.agent == o.agent && jobs[i].origin.sourcePost == o.sourcePost
                 && jobs[i].origin.output != OutputPost && !Ahead(o, jobs[i].origin)
  }

  /** The direct jobs of the action, or the children of the chain for it. */
  function ActionRank(jobs: seq<Job>, o: Origin): set<nat> {
    set i: nat | i < |jobs| && jobs[i].origin.key == o.key
                 && (if o.depth == 0 then jobs[i].origin.depth == 0 else jobs[i].origin.depth > 0 && jobs[i].origin.root == o.root)
                 && !Ahead(o, jobs[i].origin)
  }

  function HumanRank(jobs: seq<Job>, o: Origin, window: int): set<nat> {
    set i: nat | i < |jobs| && o.actor.Some? && jobs[i].origin.actor == o.actor
                 && jobs[i].origin.kind != Scheduled && jobs[i].origin.kind != Continuation
                 && jobs[i].origin.createdAt >= o.createdAt - window * 1_000_000 && !Ahead(o, jobs[i].origin)
  }

  /** The root counts whatever its rank. */
  function ChainRank(jobs: seq<Job>, o: Origin): set<nat> {
    set i: nat | i < |jobs| && jobs[i].origin.root == o.root && (i == o.root || !Ahead(o, jobs[i].origin))
  }

  /** No earlier reservation of the agent is closer than the spacing. */
  ghost predicate SpacedBehind(jobs: seq<Job>, o: Origin, p: Policy) {
    forall i :: 0 <= i < |jobs| && Ahead(jobs[i].origin, o) && jobs[i].origin.agent == o.agent ==>
      jobs[i].origin.createdAt <= o.createdAt - p.minSpacing * 1_000_000
  }

  /** No earlier reservation under the same cooldown key is within the cooldown. */
  ghost predicate CooledBehind(jobs: seq<Job>, o: Origin, p: Policy) {
    forall i :: 0 <= i < |jobs| && Ahead(jobs[i].origin, o) && o.cooldown.Some? && jobs[i].origin.cooldown == o.cooldown ==>
      jobs[i].origin.createdAt < o.createdAt - p.cooldown * 1_000_000
  }

  /** The policy's column for the kind of trigger. */
  function KindColumn(p: Policy, kind: Trigger): int {
    match kind
    case HumanPost => p.humanPostBps
    case ReplyTrigger => p.replyBps
    case RepostTrigger => p.repostBps
    case QuoteTrigger => p.quoteBps
    case Continuation => p.continuationBps
    case Scheduled => 0
  }

  /** A scheduled job runs on its slot's own date, within that date's window, and while the slot is young. */
  predicate OnItsSlot(o: Origin, p: Policy, now: Instant)
    requires p.zone.Valid()
  {
    && o.key.SlotKey? && o.key.slot != 0 && o.key.slot <= o.createdAt && now < o.key.slot + p.sourceMaxAge * 1_000_000
    && p.zone.Date(now) == p.zone.Date(o.key.slot)
    && var window := p.Window(p.zone.Date(now));
    window.0 <= o.key.slot < window.1 && window.0 <= now < window.1
  }

  ghost predicate Responds(jobs: seq<Job>, o: Origin, p: Policy, sourceAt: Option<Instant>, now: Instant) {
    && KindColumn(p, o.kind) > 0 && p.maxAgents > 0 && p.replyCapPerConversation > 0
    && sourceAt.Some? && sourceAt.value != 0 && sourceAt.value <= now < sourceAt.value + p.sourceMaxAge * 1_000_000
    && CooledBehind(jobs, o, p)
    && |ConversationRank(jobs, o)| <= p.replyCapPerConversation && |ActionRank(jobs, o)| <= p.maxAgents
    && if o.kind == Continuation then
         && o.root < |jobs| && jobs[o.root].origin.depth == 0 && jobs[o.root].origin.maxDepth == o.maxDepth
         && jobs[o.root].origin.maxJobs == o.maxJobs && jobs[o.root].origin.createdAt <= o.createdAt
         && o.depth <= p.maxDepth && |ChainRank(jobs, o)| <= o.maxJobs && |ChainRank(jobs, o)| <= p.maxJobs
       else p.humanCap > 0 && |HumanRank(jobs, o, p.humanWindow)| <= p.humanCap
  }

  /** Everything a retained job must still meet. */
  ghost predicate Entitled(jobs: seq<Job>, job: Job, p: Policy, lastPublished: Option<Instant>, sourceAt: Option<Instant>, now: Instant) {
    var o := job.origin;
    && job.Valid() && p.Valid() && now != 0 && o.createdAt <= now < o.expiresAt && p.dailyTokens > 0
    && (lastPublished.Some? ==> now >= lastPublished.value + p.minSpacing * 1_000_000)
    && SpacedBehind(jobs, o, p)
    && if o.kind == Scheduled then
         && p.scheduledMax > 0 && p.postCap > 0 && OnItsSlot(o, p, now)
         && |DayRank(jobs, o, LocalDay(p.zone, o.createdAt))| <= p.scheduledMax
         && |DayRank(jobs, o, LocalDay(p.zone, o.createdAt))| <= p.postCap
       else
         && p.replyCapPerDay > 0 && |DayRank(jobs, o, LocalDay(p.zone, o.createdAt))| <= p.replyCapPerDay
         && Responds(jobs, o, p, sourceAt, now)
  }

  /** A job is allowed to run exactly when it meets all of that. */
  lemma AllowedExactly(jobs: seq<Job>, job: Job, p: Policy, lastPublished: Option<Instant>, sourceAt: Option<Instant>, now: Instant)
    ensures Allowed(jobs, job, p, lastPublished, sourceAt, now) <==> Entitled(jobs, job, p, lastPublished, sourceAt, now)
  {
    hide SocialAllowed, Responds, UpTo, Before, SpacedBehind, LocalDay, Schedule.SlotAllowed, OnItsSlot;
    var o := job.origin;
    if job.Valid() && p.Valid() {
      JobColumns(job);
      PolicyBounds(p);
      hide Job.Valid, Policy.Valid;
      SpacingExactly(jobs, o, p);
      DayExactly(jobs, o, p);
      if o.kind != Scheduled {
        SocialExactly(jobs, o, p, sourceAt, now);
      } else if now != 0 && o.createdAt <= now < o.expiresAt {
        SlotExactly(o, p, now);
      }
    }
  }

  lemma JobColumns(job: Job)
    requires job.Valid()
    ensures var o := job.origin;
            && o.createdAt != 0 && (o.kind == Scheduled <==> o.output == OutputPost) && (o.kind == Continuation ==> o.depth > 0)
            && o.depth <= o.maxDepth
  {
  }

  lemma PolicyBounds(p: Policy)
    requires p.Valid()
    ensures p.zone.Valid() && p.dailyTokens >= 0 && p.scheduledMax >= 0 && p.postCap >= 0 && p.replyCapPerDay >= 0
    ensures p.maxAgents >= 0 && p.replyCapPerConversation >= 0 && p.humanCap >= 0
    ensures forall kind :: KindColumn(p, kind) >= 0
  {
  }

  lemma SlotExactly(o: Origin, p: Policy, now: Instant)
    requires p.Valid() && o.createdAt != 0 && now != 0 && o.createdAt <= now < o.expiresAt
    ensures p.zone.Valid()
    ensures Schedule.SlotAllowed(SlotOf(o.key), p, o.createdAt, o.expiresAt, now) <==> p.scheduledMax != 0 && OnItsSlot(o, p, now)
  {
    hide Zone.Date, Policy.Window;
  }

  lemma SpacingExactly(jobs: seq<Job>, o: Origin, p: Policy)
    ensures Before(jobs, Recent(o.agent, o.createdAt - p.Spacing()), o) == {} <==> SpacedBehind(jobs, o, p)
  {
    NoneBefore(jobs, Recent(o.agent, o.createdAt - p.Spacing()), o);
  }

  lemma NoneBefore(jobs: seq<Job>, g: Group, o: Origin)
    ensures Before(jobs, g, o) == {} <==> forall i :: 0 <= i < |jobs| && Ahead(jobs[i].origin, o) ==> !In(jobs[i].origin, g)
  {
    if Before(jobs, g, o) == {} {
      forall i | 0 <= i < |jobs| && Ahead(jobs[i].origin, o) ensures !In(jobs[i].origin, g) {
        assert i !in Before(jobs, g, o);
      }
    }
  }

  lemma DayExactly(jobs: seq<Job>, o: Origin, p: Policy)
    requires p.zone.Valid()
    ensures UpTo(jobs, DayGroup(o, p), o) == DayRank(jobs, o, LocalDay(p.zone, o.createdAt))
  {
    hide LocalDay;
  }

  lemma CooldownExactly(jobs: seq<Job>, o: Origin, p: Policy)
    ensures Before(jobs, Cooling(o.cooldown, o.createdAt - Seconds(p.cooldown)), o) == {} <==> CooledBehind(jobs, o, p)
  {
    NoneBefore(jobs, Cooling(o.cooldown, o.createdAt - Seconds(p.cooldown)), o);
  }

  lemma SocialExactly(jobs: seq<Job>, o: Origin, p: Policy, sourceAt: Option<Instant>, now: Instant)
    requires p.maxAgents >= 0 && p.replyCapPerConversation >= 0 && p.humanCap >= 0 && forall kind :: KindColumn(p, kind) >= 0
    requires o.kind != Scheduled && (o.kind == Continuation ==> o.depth > 0) && o.depth <= o.maxDepth
    ensures SocialAllowed(jobs, o, p, sourceAt, now) <==> Responds(jobs, o, p, sourceAt, now)
  {
    CooldownExactly(jobs, o, p);
    assert Probability(p, o.kind) == KindColumn(p, o.kind);
    assert UpTo(jobs, Conversation(o.agent, o.sourcePost), o) == ConversationRank(jobs, o);
    assert UpTo(jobs, ActionGroup(o), o) == ActionRank(jobs, o);
    assert UpTo(jobs, Human(o.actor, o.createdAt - Seconds(p.humanWindow)), o) == HumanRank(jobs, o, p.humanWindow);
    assert ChainUpTo(jobs, o) == ChainRank(jobs, o);
    hide UpTo, Before, CooledBehind;
  }
}
