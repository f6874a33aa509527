/** The execution-time recheck: retained reservations are ranked by creation time and id,
    and a job keeps its quota place only by its rank. */
module Eligibility {
  import opened Basics
  import opened Zones
  import opened Policies
  import opened Attempts
  import opened Jobs
  import Schedule

  predicate Earlier(a: Origin, b: Origin) {
    a.createdAt < b.createdAt || (a.createdAt == b.createdAt && a.uuid < b.uuid)
  }

  predicate NotLater(a: Origin, b: Origin) {
    !Earlier(b, a)
  }

  /** The groups of reservations that quotas and spacing count. */
  datatype Group =
    | Recent(agent: Id, after: Instant)
    | Daily(agent: Id, posts: bool, start: Instant, end: Instant)
    | Cooling(cooldown: Option<CooldownKey>, since: Instant)
    | Conversation(agent: Id, post: Option<Id>)
    | DirectAction(key: TriggerKey)
    | ChainAction(key: TriggerKey, root: nat)
    | ActionInChain(key: TriggerKey, root: nat)
    | Human(actor: Option<Id>, since: Instant)
    | Chain(root: nat)

  predicate In(o: Origin, g: Group) {
    match g
    case Recent(agent, after) => o.agent == agent && o.createdAt > after
    case Daily(agent, posts, start, end) =>
      o.agent == agent && (o.output == OutputPost) == posts && start <= o.createdAt < end
    case Cooling(key, since) => key.Some? && o.cooldown == key && o.createdAt >= since
    case Conversation(agent, post) =>
      o.agent == agent && post.Some? && o.sourcePost == post && o.output != OutputPost
    case DirectAction(key) => o.key == key && o.depth == 0
    case ChainAction(key, root) => o.key == key && o.depth > 0 && o.root == root
    case ActionInChain(key, root) => o.key == key && o.root == root
    case Human(actor, since) =>
      actor.Some? && o.actor == actor && o.kind != Scheduled && o.kind != Continuation && o.createdAt >= since
    case Chain(root) => o.root == root
  }

  function Members(jobs: seq<Job>, g: Group): set<nat> {
    set i: nat | i < |jobs| && In(jobs[i].origin, g)
  }

  function Before(jobs: seq<Job>, g: Group, o: Origin): set<nat> {
    set i: nat | i < |jobs| && In(jobs[i].origin, g) && Earlier(jobs[i].origin, o)
  }

  function UpTo(jobs: seq<Job>, g: Group, o: Origin): set<nat> {
    set i: nat | i < |jobs| && In(jobs[i].origin, g) && NotLater(jobs[i].origin, o)
  }

  /** The causal root always consumes chain capacity, whatever its rank. */
  function ChainUpTo(jobs: seq<Job>, o: Origin): set<nat> {
    set i: nat | i < |jobs| && In(jobs[i].origin, Chain(o.root)) && (i == o.root || NotLater(jobs[i].origin, o))
  }

  function Probability(p: Policy, kind: Trigger): int {
    match kind
    case ReplyTrigger => p.replyBps
    case RepostTrigger => p.repostBps
    case QuoteTrigger => p.quoteBps
    case HumanPost => p.humanPostBps
    case Continuation => p.continuationBps
    case Scheduled => 0
  }

  function SlotOf(key: TriggerKey): Option<Instant> {
    if key.SlotKey? then Some(key.slot) else None
  }

  /** The time-sensitive restrictions, rechecked after the final clock reading. */
  predicate TimeAllowed(o: Origin, p: Policy, sourceAt: Option<Instant>, now: Instant) {
    if o.kind == Scheduled then Schedule.SlotAllowed(SlotOf(o.key), p, o.createdAt, o.expiresAt, now)
    else sourceAt.Some? && sourceAt.value != 0 && sourceAt.value <= now < sourceAt.value + Seconds(p.sourceMaxAge)
  }

  function DayGroup(o: Origin, p: Policy): Group
    requires p.zone.Valid()
  {
    var (start, end) := LocalDay(p.zone, o.createdAt);
    Daily(o.agent, o.output == OutputPost, start, end)
  }

  function DayCap(o: Origin, p: Policy): int {
    if o.output == OutputPost then Min(p.postCap, p.scheduledMax) else p.replyCapPerDay
  }

  function ActionGroup(o: Origin): Group {
    if o.depth == 0 then DirectAction(o.key) else ChainAction(o.key, o.root)
  }

  predicate ChainAllowed(jobs: seq<Job>, o: Origin, p: Policy) {
    && o.root < |jobs|
    && var root := jobs[o.root].origin;
    && root.depth == 0 && root.maxDepth == o.maxDepth && root.maxJobs == o.maxJobs
    && root.createdAt <= o.createdAt && o.depth <= Min(root.maxDepth, p.maxDepth)
    && |ChainUpTo(jobs, o)| <= Min(root.maxJobs, p.maxJobs)
  }

  /** The limits that only social work has. */
  predicate SocialAllowed(jobs: seq<Job>, o: Origin, p: Policy, sourceAt: Option<Instant>, now: Instant) {
    && Probability(p, o.kind) != 0 && p.maxAgents != 0 && p.replyCapPerConversation != 0
    && Before(jobs, Cooling(o.cooldown, o.createdAt - Seconds(p.cooldown)), o) == {}
    && |UpTo(jobs, Conversation(o.agent, o.sourcePost), o)| <= p.replyCapPerConversation
    && TimeAllowed(o, p, sourceAt, now)
    && |UpTo(jobs, ActionGroup(o), o)| <= p.maxAgents
    && (if o.kind != Continuation then
          p.humanCap != 0 && |UpTo(jobs, Human(o.actor, o.createdAt - Seconds(p.humanWindow)), o)| <= p.humanCap
        else ChainAllowed(jobs, o, p))
  }

  /** Whether a locked job may still spend or publish under a policy. */
  predicate Allowed(jobs: seq<Job>, job: Job, p: Policy, lastPublished: Option<Instant>, sourceAt: Option<Instant>, now: Instant) {
    && job.Valid() && p.Valid() && now != 0 && job.origin.createdAt <= now < job.origin.expiresAt
    && p.dailyTokens != 0 && (lastPublished.Some? ==> now >= lastPublished.value + p.Spacing())
    && Before(jobs, Recent(job.origin.agent, job.origin.createdAt - p.Spacing()), job.origin) == {}
    && DayCap(job.origin, p) != 0
    && |UpTo(jobs, DayGroup(job.origin, p), job.origin)| <= DayCap(job.origin, p)
    && (if job.origin.kind == Scheduled then TimeAllowed(job.origin, p, None, now)
        else SocialAllowed(jobs, job.origin, p, sourceAt, now))
  }

  // ---- What the accepted jobs of any table obey together ----

  /** The facts under which jobs are rechecked, other than the shared policy and table. */
  datatype Moment = Moment(lastPublished: Option<Instant>, sourceAt: Option<Instant>, now: Instant)

  predicate Accepted(jobs: seq<Job>, p: Policy, moments: seq<Moment>, i: nat)
    requires i < |jobs| == |moments|
  {
    Allowed(jobs, jobs[i], p, moments[i].lastPublished, moments[i].sourceAt, moments[i].now)
  }

  lemma {:induction false} Latest(jobs: seq<Job>, s: set<nat>) returns (last: nat)
    requires s != {} && forall i :: i in s ==> i < |jobs|
    ensures last in s && forall i :: i in s ==> NotLater(jobs[i].origin, jobs[last].origin)
    decreases s
  {
    last :| last in s;
    if s != {last} {
      var other := Latest(jobs, s - {last});
      if Earlier(jobs[last].origin, jobs[other].origin) {
        last := other;
      }
    }
  }

  /** Members of a group that each fit a cap by rank fit it together. */
  lemma GroupBound(jobs: seq<Job>, s: set<nat>, g: Group, cap: int)
    requires cap >= 0
    requires forall i :: i in s ==> i < |jobs| && In(jobs[i].origin, g) && |UpTo(jobs, g, jobs[i].origin)| <= cap
    ensures |s| <= cap
  {
    if s != {} {
      var last := Latest(jobs, s);
      SubsetSize(s, UpTo(jobs, g, jobs[last].origin));
    }
  }

  ghost function AcceptedIn(jobs: seq<Job>, p: Policy, moments: seq<Moment>, g: Group): set<nat>
    requires |jobs| == |moments|
  {
    set i: nat | i < |jobs| && Accepted(jobs, p, moments, i) && In(jobs[i].origin, g)
  }

  /** What acceptance of a social job says of its ranks. */
  lemma AcceptedSocial(jobs: seq<Job>, p: Policy, moments: seq<Moment>, i: nat)
    requires i < |jobs| == |moments| && Accepted(jobs, p, moments, i) && jobs[i].origin.kind != Scheduled
    ensures SocialAllowed(jobs, jobs[i].origin, p, moments[i].sourceAt, moments[i].now)
    ensures ValidOrigin(jobs[i].origin)
  {
    hide SocialAllowed, DayGroup, ValidOrigin, Policy.Valid;
  }

  lemma AcceptedRanks(jobs: seq<Job>, p: Policy, moments: seq<Moment>, i: nat)
    requires i < |jobs| == |moments| && Accepted(jobs, p, moments, i) && jobs[i].origin.kind != Scheduled
    ensures var o := jobs[i].origin;
            && |UpTo(jobs, Conversation(o.agent, o.sourcePost), o)| <= p.replyCapPerConversation
            && |UpTo(jobs, ActionGroup(o), o)| <= p.maxAgents
            && (o.kind != Continuation ==>
                  |UpTo(jobs, Human(o.actor, o.createdAt - Seconds(p.humanWindow)), o)| <= p.humanCap)
            && (o.kind == Continuation ==> ChainAllowed(jobs, o, p))
  {
    hide UpTo, Before, ChainAllowed, TimeAllowed, Accepted;
    AcceptedSocial(jobs, p, moments, i);
  }

  lemma ConversationCap(jobs: seq<Job>, p: Policy, moments: seq<Moment>, agent: Id, post: Id)
    requires |jobs| == |moments| && p.Valid()
    ensures |AcceptedIn(jobs, p, moments, Conversation(agent, Some(post)))| <= p.replyCapPerConversation
  {
    hide Accepted, UpTo, Before;
    var g := Conversation(agent, Some(post));
    var s := AcceptedIn(jobs, p, moments, g);
    forall i | i in s ensures |UpTo(jobs, g, jobs[i].origin)| <= p.replyCapPerConversation {
      ScheduledIsPost(jobs, p, moments, i);
      AcceptedRanks(jobs, p, moments, i);
    }
    GroupBound(jobs, s, g, p.replyCapPerConversation);
  }

  lemma ScheduledIsPost(jobs: seq<Job>, p: Policy, moments: seq<Moment>, i: nat)
    requires i < |jobs| == |moments| && Accepted(jobs, p, moments, i)
    ensures jobs[i].origin.kind == Scheduled <==> jobs[i].origin.output == OutputPost
  {
    hide SocialAllowed, DayGroup, Policy.Valid;
  }

  ghost function AcceptedActions(jobs: seq<Job>, p: Policy, moments: seq<Moment>, key: TriggerKey): set<nat>
    requires |jobs| == |moments|
  {
    set i | i in AcceptedIn(jobs, p, moments, DirectAction(key)) && jobs[i].origin.kind != Scheduled
  }

  /** One action obtains at most the policy's agents per trigger. */
  lemma DirectActionCap(jobs: seq<Job>, p: Policy, moments: seq<Moment>, key: TriggerKey)
    requires |jobs| == |moments| && p.Valid()
    ensures |AcceptedActions(jobs, p, moments, key)| <= p.maxAgents
  {
    hide Accepted, UpTo, Before;
    var g := DirectAction(key);
    var s := AcceptedActions(jobs, p, moments, key);
    forall i | i in s ensures |UpTo(jobs, g, jobs[i].origin)| <= p.maxAgents {
      AcceptedRanks(jobs, p, moments, i);
      assert ActionGroup(jobs[i].origin) == g;
    }
    GroupBound(jobs, s, g, p.maxAgents);
  }

  ghost function AcceptedWithin(jobs: seq<Job>, p: Policy, moments: seq<Moment>, actor: Id, start: Instant): set<nat>
    requires |jobs| == |moments|
  {
    set i | i in AcceptedIn(jobs, p, moments, Human(Some(actor), start)) && jobs[i].origin.createdAt <= start + Seconds(p.humanWindow)
  }

  /** In every stretch as long as the window, one human's actions obtain at most the human cap. */
  lemma HumanCap(jobs: seq<Job>, p: Policy, moments: seq<Moment>, actor: Id, start: Instant)
    requires |jobs| == |moments| && p.Valid()
    ensures |AcceptedWithin(jobs, p, moments, actor, start)| <= p.humanCap
  {
    hide Accepted;
    var s := AcceptedWithin(jobs, p, moments, actor, start);
    if s != {} {
      var last := Latest(jobs, s);
      var o := jobs[last].origin;
      var ranked := UpTo(jobs, Human(o.actor, o.createdAt - Seconds(p.humanWindow)), o);
      assert s <= ranked by {
        forall i | i in s ensures i in ranked {
          assert In(jobs[i].origin, Human(Some(actor), start));
        }
      }
      AcceptedRanks(jobs, p, moments, last);
      SubsetSize(s, ranked);
    }
  }

  /** The accepted rows of a local day that were created while the clock read its date. */
  ghost function AcceptedOn(jobs: seq<Job>, p: Policy, moments: seq<Moment>, agent: Id, posts: bool, date: int): set<nat>
    requires |jobs| == |moments| && p.zone.Valid()
  {
    set i | i in AcceptedIn(jobs, p, moments, Daily(agent, posts, DayStart(p.zone, date), DayStart(p.zone, date + 1)))
            && p.zone.Date(jobs[i].origin.createdAt) == date
  }

  /** On every local date, one agent's accepted responses, and its accepted posts, obey the daily caps; where dates never go
      back that is every one of its rows of the day. */
  lemma DailyCap(jobs: seq<Job>, p: Policy, moments: seq<Moment>, agent: Id, posts: bool, date: int)
    requires |jobs| == |moments| && p.Valid()
    ensures |AcceptedOn(jobs, p, moments, agent, posts, date)| <= if posts then Min(p.postCap, p.scheduledMax) else p.replyCapPerDay
    ensures Schedule.DatesAdvance(p.zone) ==>
              AcceptedOn(jobs, p, moments, agent, posts, date)
              == AcceptedIn(jobs, p, moments, Daily(agent, posts, DayStart(p.zone, date), DayStart(p.zone, date + 1)))
  {
    hide Accepted, UpTo, Before, Boundary, Zone.Date;
    var g := Daily(agent, posts, DayStart(p.zone, date), DayStart(p.zone, date + 1));
    var cap := if posts then Min(p.postCap, p.scheduledMax) else p.replyCapPerDay;
    var s := AcceptedOn(jobs, p, moments, agent, posts, date);
    forall i | i in s ensures |UpTo(jobs, g, jobs[i].origin)| <= cap {
      DailyRank(jobs, p, moments, i);
    }
    GroupBound(jobs, s, g, cap);
    if Schedule.DatesAdvance(p.zone) {
      forall i | i in AcceptedIn(jobs, p, moments, g) ensures i in s {
        DateOfDay(p.zone, date, jobs[i].origin.createdAt);
      }
    }
  }

  /** The local days the counts run over are the dates the clock reads, at every instant, if and only if dates never go back. */
  lemma DaysAreDatesExactly(z: Zone)
    requires z.Valid()
    ensures (forall date, at :: InDay(z, date, at) ==> z.Date(at) == date) <==> Schedule.DatesAdvance(z)
  {
    hide Boundary, Zone.Date;
    if Schedule.DatesAdvance(z) {
      forall date, at | InDay(z, date, at) ensures z.Date(at) == date {
        DateOfDay(z, date, at);
      }
    } else if forall date, at :: InDay(z, date, at) ==> z.Date(at) == date {
      forall t, u | t <= u ensures z.Date(t) <= z.Date(u) {
        var early := DaysTile(z, t);
        var late := DaysTile(z, u);
        if late < early {
          BoundaryMonotone(z, Midnight(late + 1), Midnight(early));
        }
      }
    }
  }

  lemma DailyRank(jobs: seq<Job>, p: Policy, moments: seq<Moment>, i: nat)
    requires i < |jobs| == |moments| && p.Valid() && Accepted(jobs, p, moments, i)
    ensures |UpTo(jobs, DayGroup(jobs[i].origin, p), jobs[i].origin)| <= DayCap(jobs[i].origin, p)
  {
    hide UpTo, Before, Boundary, SocialAllowed, TimeAllowed;
  }

  /** When local dates never go back, an instant inside a local day reads that day's date. */
  lemma DateOfDay(z: Zone, date: int, at: Instant)
    requires z.Valid() && Schedule.DatesAdvance(z) && InDay(z, date, at)
    ensures z.Date(at) == date
  {
    var own := z.Date(at);
    InOwnDay(z, at);
    if own < date {
      DaysDisjoint(z, own, date, at);
    } else if date < own {
      DaysDisjoint(z, date, own, at);
    }
  }

  ghost function AcceptedChildren(jobs: seq<Job>, p: Policy, moments: seq<Moment>, root: nat): set<nat>
    requires |jobs| == |moments|
  {
    set i | i in AcceptedIn(jobs, p, moments, Chain(root)) && jobs[i].origin.kind == Continuation
  }

  /** The root and its accepted continuations together never exceed the chain's allowance under the policy. */
  lemma ChainCap(jobs: seq<Job>, p: Policy, moments: seq<Moment>, root: nat)
    requires |jobs| == |moments| && p.Valid() && root < |jobs| && jobs[root].origin.root == root
    ensures AcceptedChildren(jobs, p, moments, root) != {} ==>
              |AcceptedChildren(jobs, p, moments, root) + {root}| <= Min(jobs[root].origin.maxJobs, p.maxJobs)
  {
    hide Accepted, Policy.Valid;
    var s := AcceptedChildren(jobs, p, moments, root);
    if s != {} {
      var last := Latest(jobs, s);
      var ranked := ChainUpTo(jobs, jobs[last].origin);
      assert s + {root} <= ranked by {
        forall i | i in s ensures i in ranked {
          assert In(jobs[i].origin, Chain(root));
        }
      }
      AcceptedRanks(jobs, p, moments, last);
      SubsetSize(s + {root}, ranked);
    }
  }

  /** An accepted job is a full spacing after every earlier reservation of its agent,
      and more than a cooldown after every earlier one with its cooldown key. */
  lemma SpacingAndCooldown(jobs: seq<Job>, p: Policy, moments: seq<Moment>, i: nat, k: nat)
    requires i < |jobs| == |moments| && k < |jobs| && Accepted(jobs, p, moments, i)
    requires Earlier(jobs[k].origin, jobs[i].origin)
    ensures jobs[k].origin.agent == jobs[i].origin.agent ==>
              jobs[i].origin.createdAt - jobs[k].origin.createdAt >= p.Spacing()
    ensures jobs[k].origin.cooldown.Some? && jobs[k].origin.cooldown == jobs[i].origin.cooldown ==>
              jobs[i].origin.createdAt - jobs[k].origin.createdAt > Seconds(p.cooldown)
  {
    hide Accepted, UpTo;
    var o := jobs[i].origin;
    NothingBefore(jobs, p, moments, i);
    assert k !in Before(jobs, Recent(o.agent, o.createdAt - p.Spacing()), o);
    if o.kind != Scheduled {
      assert k !in Before(jobs, Cooling(o.cooldown, o.createdAt - Seconds(p.cooldown)), o);
    }
  }

  lemma NothingBefore(jobs: seq<Job>, p: Policy, moments: seq<Moment>, i: nat)
    requires i < |jobs| == |moments| && Accepted(jobs, p, moments, i)
    ensures var o := jobs[i].origin;
            && Before(jobs, Recent(o.agent, o.createdAt - p.Spacing()), o) == {}
            && (o.kind == Scheduled ==> o.cooldown.None?)
            && (o.kind != Scheduled ==> Before(jobs, Cooling(o.cooldown, o.createdAt - Seconds(p.cooldown)), o) == {})
  {
    hide Before, UpTo, TimeAllowed, ChainAllowed, DayGroup, ActionGroup, Policy.Valid;
  }

  // ---- Rank stability ----

  /** What ranking reads of an origin. */
  predicate SameRank(a: Origin, b: Origin) {
    a == b.(sourceRepost := a.sourceRepost)
  }

  /** The table grew only by reservations ranked after o; updates never touch what ranking reads. */
  ghost predicate GrownAfter(jobs: seq<Job>, later: seq<Job>, o: Origin) {
    && |jobs| <= |later|
    && (forall i :: 0 <= i < |jobs| ==> SameRank(jobs[i].origin, later[i].origin))
    && (forall i :: |jobs| <= i < |later| ==> !NotLater(later[i].origin, o))
  }

  lemma GroupsStable(jobs: seq<Job>, later: seq<Job>, g: Group, o: Origin)
    requires GrownAfter(jobs, later, o)
    ensures Before(later, g, o) == Before(jobs, g, o)
    ensures UpTo(later, g, o) == UpTo(jobs, g, o)
  {
    assert forall i :: 0 <= i < |jobs| ==> (In(later[i].origin, g) <==> In(jobs[i].origin, g));
  }

  /** Later work never invalidates, and never validates, an earlier reservation. */
  lemma RankStable(jobs: seq<Job>, later: seq<Job>, job: Job, p: Policy, last: Option<Instant>, sourceAt: Option<Instant>, now: Instant)
    requires GrownAfter(jobs, later, job.origin) && job.origin.root < |jobs|
    ensures Allowed(later, job, p, last, sourceAt, now) == Allowed(jobs, job, p, last, sourceAt, now)
  {
    hide SocialAllowed, Job.Valid, DayGroup, TimeAllowed, Before, UpTo;
    var o := job.origin;
    if p.Valid() {
      GroupsStable(jobs, later, Recent(o.agent, o.createdAt - p.Spacing()), o);
      GroupsStable(jobs, later, DayGroup(o, p), o);
      SocialStable(jobs, later, o, p, sourceAt, now);
    }
  }

  lemma SocialStable(jobs: seq<Job>, later: seq<Job>, o: Origin, p: Policy, sourceAt: Option<Instant>, now: Instant)
    requires GrownAfter(jobs, later, o) && o.root < |jobs|
    ensures SocialAllowed(later, o, p, sourceAt, now) == SocialAllowed(jobs, o, p, sourceAt, now)
  {
    hide Before, UpTo, TimeAllowed;
    GroupsStable(jobs, later, Cooling(o.cooldown, o.createdAt - Seconds(p.cooldown)), o);
    GroupsStable(jobs, later, Conversation(o.agent, o.sourcePost), o);
    GroupsStable(jobs, later, ActionGroup(o), o);
    GroupsStable(jobs, later, Human(o.actor, o.createdAt - Seconds(p.humanWindow)), o);
    assert ChainUpTo(later, o) == ChainUpTo(jobs, o);
  }
}
