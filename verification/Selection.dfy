/** Which agents a source obtains: whom a turn serves, with what row, and that nobody willing is passed over. */
module Selection {
  import opened Basics
  import opened Zones
  import opened Policies
  import opened Attempts
  import opened Jobs
  import opened Eligibility
  import opened Admission

  /** Out of ten thousand, how often an agent takes up each kind of trigger. */
  function Share(p: Policy, kind: Trigger): int {
    match kind
    case Scheduled => 0
    case Continuation => p.continuationBps
    case HumanPost => p.humanPostBps
    case QuoteTrigger => p.quoteBps
    case RepostTrigger => p.repostBps
    case ReplyTrigger => p.replyBps
  }

  /** A zero in any of these columns means that the agent does not respond at all. */
  predicate Wants(p: Policy, kind: Trigger, line: Line) {
    && Share(p, kind) > 0 && p.maxAgents > 0 && p.replyCapPerDay > 0 && p.replyCapPerConversation > 0
    && (if line.Direct? then p.humanCap > 0 else p.maxDepth > 0)
  }

  lemma WillingExactly(s: Settings, kind: Trigger, line: Line)
    requires s.Valid()
    ensures Willing(s, kind, line) <==> Wants(s.policy, kind, line)
  {
  }

  /** The agent has published and reserved nothing too recently, and its quotas of the day and of the conversation have room. */
  ghost predicate Room(jobs: seq<Job>, s: Settings, source: Source, clock: Instant)
    requires s.policy.zone.Valid()
  {
    var p := s.policy;
    && (s.lastPublishedAt.Some? ==> clock >= s.lastPublishedAt.value + p.minSpacing * 1_000_000)
    && (forall i :: 0 <= i < |jobs| && jobs[i].origin.agent == s.agent ==> jobs[i].origin.createdAt <= clock - p.minSpacing * 1_000_000)
    && (forall i :: 0 <= i < |jobs| && jobs[i].origin.cooldown == Some(CooldownKey(source.actor, s.agent, source.post, source.kind)) ==>
          jobs[i].origin.createdAt < clock - p.cooldown * 1_000_000)
    && |OfDay(jobs, s.agent, LocalDay(p.zone, clock))| < p.replyCapPerDay
    && |OfConversation(jobs, s.agent, source.post)| < p.replyCapPerConversation
  }

  /** The agent's responses created within a day's bounds. */
  function OfDay(jobs: seq<Job>, agent: Id, day: (Instant, Instant)): set<nat> {
    set i: nat | i < |jobs| && jobs[i].origin.agent == agent && jobs[i].origin.output != OutputPost
                 && day.0 <= jobs[i].origin.createdAt < day.1
  }

  /** The agent's responses in a conversation. */
  function OfConversation(jobs: seq<Job>, agent: Id, post: Id): set<nat> {
    set i: nat | i < |jobs| && jobs[i].origin.agent == agent && jobs[i].origin.output != OutputPost && jobs[i].origin.sourcePost == Some(post)
  }

  lemma NoMembers(jobs: seq<Job>, g: Group)
    ensures Members(jobs, g) == {} <==> forall i :: 0 <= i < |jobs| ==> !In(jobs[i].origin, g)
  {
    if Members(jobs, g) == {} {
      forall i | 0 <= i < |jobs| ensures !In(jobs[i].origin, g) {
        assert i !in Members(jobs, g);
      }
    }
  }

  lemma RoomExactly(jobs: seq<Job>, s: Settings, source: Source, clock: Instant)
    requires s.policy.zone.Valid()
    ensures Allowance(jobs, s, source.post, Cooldown(source, s.agent), clock) <==> Room(jobs, s, source, clock)
  {
    hide LocalDay;
    var p := s.policy;
    var key := CooldownKey(source.actor, s.agent, source.post, source.kind);
    var day := LocalDay(p.zone, clock);
    NoMembers(jobs, Cooling(Some(key), clock - Seconds(p.cooldown)));
    NoMembers(jobs, Recent(s.agent, clock - p.Spacing()));
    assert Members(jobs, Daily(s.agent, false, day.0, day.1)) == OfDay(jobs, s.agent, day);
    assert Members(jobs, Conversation(s.agent, Some(source.post))) == OfConversation(jobs, s.agent, source.post);
  }

  /** The chain has room below its root's limits and the agent's own. */
  predicate ChainRoom(t: Tally, p: Policy, line: Line) {
    line.Child? ==>
      && line.parent.origin.depth + 1 <= line.root.origin.maxDepth && line.parent.origin.depth + 1 <= p.maxDepth
      && t.chain < line.root.origin.maxJobs && t.chain < p.maxJobs
  }

  /** The turn's draw falls into the agent's share for the kind, the source is young enough for it, and all its quotas have room. */
  ghost predicate Selected(t: Tally, c: Candidate, source: Source, line: Line, clock: Instant)
    requires c.settings.policy.zone.Valid()
  {
    var p := c.settings.policy;
    && c.sample < Share(p, source.kind)
    && source.createdAt != 0 && clock != 0 && source.createdAt <= clock < source.createdAt + p.sourceMaxAge * 1_000_000
    && ChainRoom(t, p, line) && Room(t.jobs, c.settings, source, clock)
  }

  /** The agent already has a job for the action. */
  predicate Answered(jobs: seq<Job>, agent: Id, source: Source) {
    exists i :: 0 <= i < |jobs| && jobs[i].origin.agent == agent && jobs[i].origin.key == ActionKey(source.kind, source.action)
  }

  /** The row of a turn: waiting, under the agent's own settings, available after the drawn delay and gone with the source's age. */
  predicate Reserved(jobs: seq<Job>, job: Job, c: Candidate, source: Source, line: Line, clock: Instant) {
    var s, o := c.settings, job.origin;
    && job.status == Pending && job.lease == 0 && job.availableAt == Max(clock, source.createdAt + (s.policy.responseMin + c.delay) * 1_000_000)
    && o.row == |jobs| && o.uuid == c.uuid && o.agent == s.agent && o.personaVersion == s.personaVersion
    && o.kind == source.kind && o.key == ActionKey(source.kind, source.action) && o.output == OutputReply
    && o.actor == Some(source.actor) && o.cooldown == Some(CooldownKey(source.actor, s.agent, source.post, source.kind))
    && o.sourcePost == Some(source.post) && o.sourceReply == source.reply && o.sourceRepost == source.repost
    && o.createdAt == clock && o.expiresAt == source.createdAt + s.policy.sourceMaxAge * 1_000_000
    && match line
       case Direct => o.root == |jobs| && o.depth == 0 && o.maxDepth == s.policy.maxDepth && o.maxJobs == s.policy.maxJobs
       case Child(parent, root) =>
         && o.root == root.origin.row && o.depth == parent.origin.depth + 1
         && o.maxDepth == root.origin.maxDepth && o.maxJobs == root.origin.maxJobs
  }

  /** What the callers of admission bring: a source with the columns of its kind, and a chain that hangs together. */
  predicate Proper(source: Source, line: Line) {
    && source.actor != 0 && source.post != 0 && source.action != 0
    && (match source.kind
        case Scheduled => false
        case ReplyTrigger => line.Direct? && source.reply.Some? && source.repost.None?
        case RepostTrigger => line.Direct? && source.reply.None?
        case Continuation => line.Child? && source.repost.None?
        case _ => line.Direct? && source.reply.None? && source.repost.None?)
    && (line.Child? ==>
          && line.root.Valid() && line.parent.Valid() && line.root.origin.depth == 0 && line.parent.origin.root == line.root.origin.row
          && line.parent.origin.maxDepth == line.root.origin.maxDepth && line.parent.origin.maxJobs == line.root.origin.maxJobs)
  }

  /** Valid settings of another agent than the actor, a fresh id, and draws inside their bounds. */
  predicate WellDrawn(c: Candidate, source: Source) {
    && c.settings.Valid() && c.settings.agent != source.actor && c.uuid != 0
    && 0 <= c.sample < 10000 && 0 <= c.delay <= c.settings.policy.responseMax - c.settings.policy.responseMin
  }

  lemma ValidZone(s: Settings)
    requires s.Valid()
    ensures s.policy.Valid() && s.policy.zone.Valid() && s.agent != 0 && 0 <= s.policy.sourceMaxAge
  {
    hide Zone.Valid;
  }

  /** A proper turn never fails. It adds the agent's row exactly when the agent is selected and has none for the action yet, and
      otherwise nothing. */
  lemma TurnDecides(t: Tally, c: Candidate, source: Source, line: Line, clock: Instant)
    requires Proper(source, line) && WellDrawn(c, source) && (line.Child? ==> line.root.origin.row < |t.jobs|)
    ensures c.settings.policy.zone.Valid() && Turn(t, c, source, line, clock).Some?
    ensures var r := Turn(t, c, source, line, clock).value;
            if Selected(t, c, source, line, clock) && !Answered(t.jobs, c.settings.agent, source) then
              && |r.jobs| == |t.jobs| + 1 && r.jobs[..|t.jobs|] == t.jobs
              && Reserved(t.jobs, r.jobs[|t.jobs|], c, source, line, clock)
              && r.enqueued == t.enqueued + 1 && r.human == t.human + (if line.Direct? then 1 else 0)
              && r.chain == t.chain + (if line.Child? then 1 else 0)
            else r == t
  {
    hide Allowance, Room, Settings.Valid, Policy.Valid, Zone.Valid, ValidContinuation, Job.Valid;
    ValidZone(c.settings);
    ShareExactly(c.settings, source.kind);
    RoomExactly(t.jobs, c.settings, source, clock);
    TimingExactly(c, source, clock);
    if ResponseTiming(c.settings.policy, source.createdAt, clock, c.delay).Some? && !ChainFull(t, c.settings.policy, line) {
      RowValid(t, c, source, line, clock, ResponseTiming(c.settings.policy, source.createdAt, clock, c.delay).value);
    }
  }

  lemma ShareExactly(s: Settings, kind: Trigger)
    requires s.Valid()
    ensures Probability(s.policy, kind) == Share(s.policy, kind) <= 10000
  {
  }

  lemma TimingExactly(c: Candidate, source: Source, clock: Instant)
    requires WellDrawn(c, source)
    ensures var p, r := c.settings.policy, ResponseTiming(c.settings.policy, source.createdAt, clock, c.delay);
            && (r.Some? <==> source.createdAt != 0 && clock != 0 && source.createdAt <= clock < source.createdAt + p.sourceMaxAge * 1_000_000)
            && (r.Some? ==>
                  && r.value == (Max(clock, source.createdAt + (p.responseMin + c.delay) * 1_000_000), source.createdAt + p.sourceMaxAge * 1_000_000)
                  && r.value.0 < r.value.1)
  {
    hide Zone.Valid;
  }

  /** What a turn inserts is valid, and a child continues its chain. */
  lemma RowValid(t: Tally, c: Candidate, source: Source, line: Line, clock: Instant, timing: (Instant, Instant))
    requires Proper(source, line) && WellDrawn(c, source) && clock != 0 && clock <= timing.0 < timing.1
    requires ChainRoom(t, c.settings.policy, line) && (line.Child? ==> line.root.origin.row < |t.jobs|)
    ensures var job := NewJob(|t.jobs|, c, source, line, clock, timing);
            job.Valid() && (line.Child? ==> ValidContinuation(line.root, line.parent, job))
  {
    hide Zone.Valid;
  }

  // ---- Whole batches ----

  /** The caps one admission shares are the smallest, and its window the longest, among those it serves. */
  lemma {:induction false} LimitsExactly(cs: seq<Candidate>, line: Line)
    requires forall c :: c in cs ==> c.settings.Valid()
    ensures var r := LimitsOf(cs, line);
            && (cs != [] ==> exists c :: c in cs && r.action == c.settings.policy.maxAgents)
            && (cs != [] && line.Direct? ==>
                  && (exists c :: c in cs && r.human == c.settings.policy.humanCap)
                  && (exists c :: c in cs && r.window == c.settings.policy.humanWindow))
    decreases cs
  {
    hide Zone.Valid;
    if cs != [] {
      var n := |cs| - 1;
      assert cs[n] in cs && forall c :: c in cs[..n] ==> c in cs;
      LimitsExactly(cs[..n], line);
    }
  }

  /** Rows of the chain, and those of them for the action. */
  function OfChain(jobs: seq<Job>, root: nat): set<nat> {
    set i: nat | i < |jobs| && jobs[i].origin.root == root
  }

  function OfAction(jobs: seq<Job>, root: nat, source: Source): set<nat> {
    set i: nat | i < |jobs| && jobs[i].origin.root == root && jobs[i].origin.key == ActionKey(source.kind, source.action)
  }

  /** What the actor's own actions reserved since an instant. */
  function OfHuman(jobs: seq<Job>, actor: Id, since: Instant): set<nat> {
    set i: nat | i < |jobs| && jobs[i].origin.actor == Some(actor) && jobs[i].origin.createdAt >= since
                 && jobs[i].origin.kind != Scheduled && jobs[i].origin.kind != Continuation
  }

  /** A cap of one of the agents served is used up for all of them. */
  ghost predicate CapsReached(jobs: seq<Job>, added: int, cs: seq<Candidate>, source: Source, line: Line, clock: Instant) {
    match line
    case Direct =>
      || (exists c :: c in cs && added >= c.settings.policy.maxAgents)
      || (exists c, d :: c in cs && d in cs
            && |OfHuman(jobs, source.actor, clock - d.settings.policy.humanWindow * 1_000_000)| + added >= c.settings.policy.humanCap)
    case Child(_, root) => exists c :: c in cs && |OfAction(jobs, root.origin.row, source)| + added >= c.settings.policy.maxAgents
  }

  /** The table as it was after a number of rows, with the chain's count then. */
  function Reached(jobs: seq<Job>, n: nat, chain: int): Tally
    requires n <= |jobs|
  {
    Tally(jobs[..n], 0, 0, chain)
  }

  /** The agent has its row, or was not selected at some table of the batch. */
  ghost predicate Served(t: Tally, after: seq<Job>, c: Candidate, source: Source, line: Line, clock: Instant)
    requires c.settings.policy.zone.Valid()
  {
    || Answered(after, c.settings.agent, source)
    || exists n :: PassedOver(t, after, n, c, source, line, clock)
  }

  ghost predicate PassedOver(t: Tally, after: seq<Job>, n: nat, c: Candidate, source: Source, line: Line, clock: Instant)
    requires c.settings.policy.zone.Valid()
  {
    |t.jobs| <= n <= |after| && !Selected(Reached(after, n, t.chain + n - |t.jobs|), c, source, line, clock)
  }

  ghost predicate AllDrawn(cs: seq<Candidate>, source: Source) {
    forall c :: c in cs ==> WellDrawn(c, source) && c.settings.policy.zone.Valid()
  }

  lemma {:induction false} TurnsServe(t: Tally, cs: seq<Candidate>, prior: int, limits: Limits, source: Source, line: Line, clock: Instant)
    requires Proper(source, line) && AllDrawn(cs, source) && (line.Child? ==> line.root.origin.row < |t.jobs|)
    ensures Turns(t, cs, prior, limits, source, line, clock).Some?
    ensures var r := Turns(t, cs, prior, limits, source, line, clock).value;
            && Extends(t.jobs, r.jobs) && r.enqueued == t.enqueued + |r.jobs| - |t.jobs|
            && (line.Direct? ==> r.human == t.human + |r.jobs| - |t.jobs|)
            && (Full(r, prior, limits, line) || forall c :: c in cs ==> Served(t, r.jobs, c, source, line, clock))
    decreases cs
  {
    hide Turn, Proper, WellDrawn, Selected, Zone.Valid, Share, Served, Reserved;
    if cs != [] && !Full(t, prior, limits, line) {
      TurnDecides(t, cs[0], source, line, clock);
      var next := Turn(t, cs[0], source, line, clock).value;
      TurnsServe(next, cs[1..], prior, limits, source, line, clock);
      var r := Turns(t, cs, prior, limits, source, line, clock).value;
      if !Full(r, prior, limits, line) {
        TurnServes(t, cs[0], next, r.jobs, source, line, clock);
        forall c | c in cs ensures Served(t, r.jobs, c, source, line, clock) {
          if c != cs[0] {
            assert c in cs[1..];
            ServedBefore(t, next, r.jobs, c, source, line, clock);
          }
        }
      }
    }
  }

  /** Only tables of children count their chain. */
  lemma ChainAside(t: Tally, u: Tally, c: Candidate, source: Source, line: Line, clock: Instant)
    requires c.settings.policy.zone.Valid() && t.jobs == u.jobs && (line.Child? ==> t.chain == u.chain)
    ensures Selected(t, c, source, line, clock) == Selected(u, c, source, line, clock)
  {
    hide Zone.Valid, Room, Share;
  }

  lemma TurnServes(t: Tally, c: Candidate, next: Tally, after: seq<Job>, source: Source, line: Line, clock: Instant)
    requires Proper(source, line) && WellDrawn(c, source)
    requires line.Child? ==> line.root.origin.row < |t.jobs|
    requires Turn(t, c, source, line, clock) == Some(next) && Extends(next.jobs, after) && Extends(t.jobs, after)
    requires c.settings.policy.zone.Valid()
    ensures Served(t, after, c, source, line, clock)
  {
    hide Turn, Proper, WellDrawn, Selected, Zone.Valid, Share;
    TurnDecides(t, c, source, line, clock);
    if Selected(t, c, source, line, clock) {
      assert Answered(next.jobs, c.settings.agent, source) by {
        if !Answered(t.jobs, c.settings.agent, source) {
          assert next.jobs[|t.jobs|].origin.agent == c.settings.agent;
        }
      }
      var i :| 0 <= i < |next.jobs| && next.jobs[i].origin.agent == c.settings.agent
               && next.jobs[i].origin.key == ActionKey(source.kind, source.action);
      assert after[..|next.jobs|][i] == after[i];
    } else {
      ChainAside(t, Reached(after, |t.jobs|, t.chain), c, source, line, clock);
      assert PassedOver(t, after, |t.jobs|, c, source, line, clock);
    }
  }

  lemma ServedBefore(t: Tally, next: Tally, after: seq<Job>, c: Candidate, source: Source, line: Line, clock: Instant)
    requires c.settings.policy.zone.Valid() && Served(next, after, c, source, line, clock)
    requires |t.jobs| <= |next.jobs| && (line.Child? ==> next.chain == t.chain + |next.jobs| - |t.jobs|)
    ensures Served(t, after, c, source, line, clock)
  {
    hide Selected, Zone.Valid;
    if !Answered(after, c.settings.agent, source) {
      var n: nat :| PassedOver(next, after, n, c, source, line, clock);
      ChainAside(Reached(after, n, next.chain + n - |next.jobs|), Reached(after, n, t.chain + n - |t.jobs|), c, source, line, clock);
      assert PassedOver(t, after, n, c, source, line, clock);
    }
  }

  /** The tally a batch starts from. */
  function Opened(jobs: seq<Job>, line: Line): Tally {
    Tally(jobs, 0, 0, if line.Child? then Min(|OfChain(jobs, line.root.origin.row)|, line.root.origin.maxJobs) else 0)
  }

  /** Well-drawn turns never abort an admission, and it passes over nobody: every agent that wants the source obtains a row, or was
      not selected at some table of the batch, or a shared cap is used up. */
  lemma NobodySkipped(jobs: seq<Job>, source: Source, line: Line, candidates: seq<Candidate>, clock: Instant)
    requires Proper(source, line) && clock >= source.createdAt && (line.Child? ==> line.root.origin.row < |jobs|)
    requires forall c :: c in candidates ==> WellDrawn(c, source)
    ensures Admit(jobs, source, line, candidates, clock).Some?
    ensures var after := Admit(jobs, source, line, candidates, clock).value;
            forall c :: c in candidates && Wants(c.settings.policy, source.kind, line) ==>
              && c.settings.policy.zone.Valid()
              && (Served(Opened(jobs, line), after, c, source, line, clock)
                  || CapsReached(jobs, |after| - |jobs|, candidates, source, line, clock))
  {
    hide Turns, Willing, Selected, Zone.Valid, Served, CapsReached, WellDrawn, Settings.Valid, EligibleOf, LimitsOf, Opening, Prior, Full,
         AllDrawn, Wants, Opened;
    var eligible := EligibleOf(candidates, source.kind, line);
    EligibleDrawn(candidates, source, line);
    if eligible != [] {
      BatchServes(jobs, source, line, candidates, clock);
    }
  }

  lemma BatchServes(jobs: seq<Job>, source: Source, line: Line, candidates: seq<Candidate>, clock: Instant)
    requires Proper(source, line) && (line.Child? ==> line.root.origin.row < |jobs|)
    requires var eligible := EligibleOf(candidates, source.kind, line);
             eligible != [] && AllDrawn(eligible, source) && forall c :: c in eligible ==> c.settings.Valid()
    ensures var eligible := EligibleOf(candidates, source.kind, line);
            var limits := LimitsOf(eligible, line);
            var r := Turns(Opening(jobs, limits, source, line, clock), eligible, Prior(jobs, limits, source, line), limits, source, line, clock);
            && r.Some?
            && (|| (forall c :: c in eligible ==> Served(Opened(jobs, line), r.value.jobs, c, source, line, clock))
                || CapsReached(jobs, |r.value.jobs| - |jobs|, candidates, source, line, clock))
  {
    hide Turns, Willing, Selected, Zone.Valid, Served, CapsReached, WellDrawn, Settings.Valid, EligibleOf, LimitsOf, Opening, Prior, Full, Opened,
         Share, Extends, Proper;
    var eligible := EligibleOf(candidates, source.kind, line);
    var limits := LimitsOf(eligible, line);
    var opening, prior := Opening(jobs, limits, source, line, clock), Prior(jobs, limits, source, line);
    OpeningTally(jobs, limits, source, line, clock);
    TurnsServe(opening, eligible, prior, limits, source, line, clock);
    var r := Turns(opening, eligible, prior, limits, source, line, clock).value;
    if Full(r, prior, limits, line) {
      FullReached(jobs, r, candidates, source, line, clock);
    } else {
      OpeningServes(jobs, opening, r.jobs, eligible, source, line, clock);
    }
  }

  lemma OpeningTally(jobs: seq<Job>, limits: Limits, source: Source, line: Line, clock: Instant)
    ensures var opening := Opening(jobs, limits, source, line, clock);
            opening.jobs == jobs && opening.enqueued == 0 && (line.Child? ==> opening.chain == Opened(jobs, line).chain)
  {
    if line.Child? {
      assert Members(jobs, Chain(line.root.origin.row)) == OfChain(jobs, line.root.origin.row);
    }
  }

  lemma EligibleDrawn(candidates: seq<Candidate>, source: Source, line: Line)
    requires forall c :: c in candidates ==> WellDrawn(c, source)
    ensures forall c :: c in candidates ==> c.settings.policy.zone.Valid()
    ensures var eligible := EligibleOf(candidates, source.kind, line);
            && AllDrawn(eligible, source) && (forall c :: c in eligible ==> c.settings.Valid())
            && forall c :: c in candidates && Wants(c.settings.policy, source.kind, line) ==> c in eligible
  {
    hide Willing, Wants, Zone.Valid, Settings.Valid;
    forall c | c in candidates ensures c.settings.Valid() && c.settings.policy.zone.Valid() {
      ValidZone(c.settings);
    }
    forall c | c in candidates ensures Willing(c.settings, source.kind, line) <==> Wants(c.settings.policy, source.kind, line) {
      WillingExactly(c.settings, source.kind, line);
    }
  }

  lemma OpeningServes(jobs: seq<Job>, opening: Tally, after: seq<Job>, cs: seq<Candidate>, source: Source, line: Line, clock: Instant)
    requires opening.jobs == jobs && (line.Child? ==> opening.chain == Opened(jobs, line).chain)
    requires forall c :: c in cs ==> c.settings.policy.zone.Valid() && Served(opening, after, c, source, line, clock)
    ensures forall c :: c in cs ==> Served(Opened(jobs, line), after, c, source, line, clock)
  {
    hide Served, Zone.Valid;
    forall c | c in cs ensures Served(Opened(jobs, line), after, c, source, line, clock) {
      ServedBefore(Opened(jobs, line), opening, after, c, source, line, clock);
    }
  }

  lemma FullReached(jobs: seq<Job>, r: Tally, candidates: seq<Candidate>, source: Source, line: Line, clock: Instant)
    requires var eligible := EligibleOf(candidates, source.kind, line);
             var limits := LimitsOf(eligible, line);
             && eligible != [] && (forall c :: c in eligible ==> c.settings.Valid())
             && r.enqueued == |r.jobs| - |jobs|
             && (line.Direct? ==> r.human == Opening(jobs, limits, source, line, clock).human + |r.jobs| - |jobs|)
             && Full(r, Prior(jobs, limits, source, line), limits, line)
    ensures CapsReached(jobs, |r.jobs| - |jobs|, candidates, source, line, clock)
  {
    hide Willing, Settings.Valid, EligibleOf, LimitsOf;
    var eligible := EligibleOf(candidates, source.kind, line);
    var limits := LimitsOf(eligible, line);
    LimitsExactly(eligible, line);
    match line
    case Direct =>
      assert Members(jobs, Human(Some(source.actor), clock - Seconds(limits.window)))
          == OfHuman(jobs, source.actor, clock - limits.window * 1_000_000);
    case Child(_, root) =>
      assert Members(jobs, ChainKey(source, root.origin.row)) == OfAction(jobs, root.origin.row, source);
  }

  /** Well-drawn turns never abort an admission, whatever its clock. */
  lemma AdmitSucceeds(jobs: seq<Job>, source: Source, line: Line, candidates: seq<Candidate>, clock: Instant)
    requires Proper(source, line) && (line.Child? ==> line.root.origin.row < |jobs|)
    requires forall c :: c in candidates ==> WellDrawn(c, source)
    ensures Admit(jobs, source, line, candidates, clock).Some?
  {
    hide Turns, EligibleOf, LimitsOf, Opening, Prior, Served, CapsReached, WellDrawn, Settings.Valid, Wants, Proper;
    if clock >= source.createdAt {
      NobodySkipped(jobs, source, line, candidates, clock);
    }
  }
}
