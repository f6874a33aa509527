/** Enqueue-time admission: one social action or publication reserves bounded work for the agents it concerns. */
module Admission {
  import opened Basics
  import opened Zones
  import opened Policies
  import opened Attempts
  import opened Jobs
  import opened Eligibility

  /** The committed action that triggers work. */
  datatype Source = Source(kind: Trigger, action: Id, actor: Id, post: Id, reply: Option<Id>, repost: Option<Id>, createdAt: Instant)

  /** A discovered agent with its locked settings, and the fresh id and random draws its turn would use. */
  datatype Candidate = Candidate(settings: Settings, uuid: nat, sample: int, delay: int)

  /** Direct actions start chains; a publication continues the chain of its root. */
  datatype Line = Direct | Child(parent: Job, root: Job)

  /** The shared caps of one admission: the strictest of the eligible agents'. */
  datatype Limits = Limits(action: int, human: int, window: int)

  datatype Tally = Tally(jobs: seq<Job>, enqueued: int, human: int, chain: int)

  /** Zero caps disable a candidate; they never loosen another candidate's cap. */
  predicate Willing(s: Settings, kind: Trigger, line: Line) {
    && Probability(s.policy, kind) != 0
    && s.policy.maxAgents != 0 && s.policy.replyCapPerDay != 0 && s.policy.replyCapPerConversation != 0
    && (if line.Direct? then s.policy.humanCap != 0 else s.policy.maxDepth != 0)
  }

  function EligibleOf(cs: seq<Candidate>, kind: Trigger, line: Line): (r: seq<Candidate>)
    ensures forall c :: c in r ==> c in cs && Willing(c.settings, kind, line)
    ensures forall c :: c in cs && Willing(c.settings, kind, line) ==> c in r
  {
    if cs == [] then []
    else EligibleOf(cs[..|cs| - 1], kind, line)
         + (if Willing(cs[|cs| - 1].settings, kind, line) then [cs[|cs| - 1]] else [])
  }

  function LimitsOf(cs: seq<Candidate>, line: Line): (r: Limits)
    ensures r.action <= 10
    ensures forall c :: c in cs ==> r.action <= c.settings.policy.maxAgents
    ensures line.Direct? ==> forall c :: c in cs ==> r.human <= c.settings.policy.humanCap
    ensures line.Direct? ==> forall c :: c in cs ==> c.settings.policy.humanWindow <= r.window
  {
    if cs == [] then Limits(10, 1000, 0)
    else
      var r := LimitsOf(cs[..|cs| - 1], line);
      var p := cs[|cs| - 1].settings.policy;
      var action := Min(r.action, p.maxAgents);
      if line.Direct? then Limits(action, Min(r.human, p.humanCap), Max(r.window, p.humanWindow))
      else r.(action := action)
  }

  /** When a response becomes available and when it expires, from the original source time. */
  function ResponseTiming(p: Policy, sourceAt: Instant, now: Instant, delay: int): (r: Option<(Instant, Instant)>)
    ensures r.Some? ==> sourceAt <= now <= r.value.0 && now < r.value.1 == sourceAt + Seconds(p.sourceMaxAge)
  {
    var expiresAt := sourceAt + Seconds(p.sourceMaxAge);
    var spread := p.responseMax - p.responseMin + 1;
    if !p.Valid() || sourceAt == 0 || now == 0 || sourceAt > now || now >= expiresAt then None
    else if spread != 1 && !(0 <= delay < spread) then None
    else Some((Max(now, sourceAt + Seconds(p.responseMin + (if spread == 1 then 0 else delay))), expiresAt))
  }

  function Cooldown(source: Source, agent: Id): CooldownKey {
    CooldownKey(source.actor, agent, source.post, source.kind)
  }

  /** Spacing, cooldown, daily and conversation quotas, counted over retained reservations. */
  predicate Allowance(jobs: seq<Job>, s: Settings, post: Id, cooldown: CooldownKey, now: Instant) {
    var p := s.policy;
    && p.zone.Valid()
    && (s.lastPublishedAt.Some? ==> now >= s.lastPublishedAt.value + p.Spacing())
    && Members(jobs, Cooling(Some(cooldown), now - Seconds(p.cooldown))) == {}
    && Members(jobs, Recent(s.agent, now - p.Spacing())) == {}
    && (var (start, end) := LocalDay(p.zone, now);
        |Members(jobs, Daily(s.agent, false, start, end))| < p.replyCapPerDay)
    && |Members(jobs, Conversation(s.agent, Some(post)))| < p.replyCapPerConversation
  }

  predicate Taken(jobs: seq<Job>, agent: Id, key: TriggerKey) {
    exists i :: 0 <= i < |jobs| && jobs[i].origin.agent == agent && jobs[i].origin.key == key
  }

  function NewJob(row: nat, c: Candidate, source: Source, line: Line, clock: Instant, timing: (Instant, Instant)): Job {
    var s := c.settings;
    var (root, depth, maxDepth, maxJobs) := match line
      case Direct => (row, 0, s.policy.maxDepth, s.policy.maxJobs)
      case Child(parent, root) => (root.origin.row, parent.origin.depth + 1, root.origin.maxDepth, root.origin.maxJobs);
    Job(Origin(row, c.uuid, s.agent, s.personaVersion, source.kind, ActionKey(source.kind, source.action),
               Some(source.actor), Some(Cooldown(source, s.agent)), Some(source.post), source.reply, source.repost,
               OutputReply, root, depth, maxDepth, maxJobs, clock, timing.1),
        Pending, timing.0, 0, None, None, None, None, NoCode, None)
  }

  predicate ChainFull(t: Tally, p: Policy, line: Line) {
    line.Child?
    && (line.parent.origin.depth + 1 > Min(line.root.origin.maxDepth, p.maxDepth)
        || t.chain >= Min(line.root.origin.maxJobs, p.maxJobs))
  }

  function Insert(t: Tally, job: Job, line: Line): (r: Tally)
    ensures |t.jobs| <= |r.jobs|
  {
    if Taken(t.jobs, job.origin.agent, job.origin.key) then t
    else Tally(t.jobs + [job], t.enqueued + 1,
               if line.Direct? then t.human + 1 else t.human, if line.Child? then t.chain + 1 else t.chain)
  }

  /** One candidate's turn; None is an error that aborts the whole transaction. */
  function Turn(t: Tally, c: Candidate, source: Source, line: Line, clock: Instant): (r: Option<Tally>)
    ensures r.Some? ==> |t.jobs| <= |r.value.jobs|
  {
    var p := c.settings.policy;
    var probability := Probability(p, source.kind);
    if ChainFull(t, p, line) then Some(t)
    else if probability < 10000 && !(0 <= c.sample < 10000) then None
    else if probability < 10000 && c.sample >= probability then Some(t)
    else match ResponseTiming(p, source.createdAt, clock, c.delay)
      case None => Some(t)
      case Some(timing) =>
        if source.actor == 0 || source.post == 0 || c.settings.agent == 0 || source.actor == c.settings.agent then None
        else if !Allowance(t.jobs, c.settings, source.post, Cooldown(source, c.settings.agent), clock) then Some(t)
        else
          var job := NewJob(|t.jobs|, c, source, line, clock, timing);
          if (line.Child? && !ValidContinuation(line.root, line.parent, job)) || !job.Valid() then None
          else Some(Insert(t, job, line))
  }

  predicate Full(t: Tally, prior: int, limits: Limits, line: Line) {
    t.enqueued + prior >= limits.action || (line.Direct? && t.human >= limits.human)
  }

  function Turns(t: Tally, cs: seq<Candidate>, prior: int, limits: Limits, source: Source, line: Line, clock: Instant): (r: Option<Tally>)
    ensures r.Some? ==> |t.jobs| <= |r.value.jobs|
    decreases cs
  {
    if cs == [] || Full(t, prior, limits, line) then Some(t)
    else
      var next :- Turn(t, cs[0], source, line, clock);
      Turns(next, cs[1..], prior, limits, source, line, clock)
  }

  /** The counts admission starts from, each capped the way its query is. */
  function Opening(jobs: seq<Job>, limits: Limits, source: Source, line: Line, clock: Instant): Tally {
    Tally(jobs, 0,
          if line.Direct? then Min(|Members(jobs, Human(Some(source.actor), clock - Seconds(limits.window)))|, limits.human) else 0,
          if line.Child? then Min(|Members(jobs, Chain(line.root.origin.row))|, line.root.origin.maxJobs) else 0)
  }

  function Prior(jobs: seq<Job>, limits: Limits, source: Source, line: Line): int {
    if line.Direct? then 0
    else Min(|Members(jobs, ChainKey(source, line.root.origin.row))|, limits.action)
  }

  /** A chain's jobs for one action, at any depth. */
  function ChainKey(source: Source, root: nat): Group {
    ActionInChain(ActionKey(source.kind, source.action), root)
  }

  /** The reservations one source obtains: the table afterwards, or None when the transaction must abort. */
  function Admit(jobs: seq<Job>, source: Source, line: Line, candidates: seq<Candidate>, clock: Instant): (r: Option<seq<Job>>)
    ensures r.Some? ==> |jobs| <= |r.value|
  {
    var eligible := EligibleOf(candidates, source.kind, line);
    if eligible == [] || clock < source.createdAt then Some(jobs)
    else if source.kind == Scheduled || source.action == 0 then None
    else
      var limits := LimitsOf(eligible, line);
      var t :- Turns(Opening(jobs, limits, source, line, clock), eligible, Prior(jobs, limits, source, line), limits, source, line, clock);
      Some(t.jobs)
  }

  /** The shared limits, gathered while dropping the candidates that cannot respond. */
  method Prepare(candidates: seq<Candidate>, kind: Trigger, line: Line) returns (eligible: seq<Candidate>, limits: Limits)
    ensures eligible == EligibleOf(candidates, kind, line)
    ensures limits == LimitsOf(eligible, line)
  {
    hide Willing, LimitsOf, EligibleOf;
    eligible, limits := [], Limits(10, 1000, 0);
    NoneYet(kind, line);
    assert candidates[..0] == [];
    for i := 0 to |candidates|
      invariant eligible == EligibleOf(candidates[..i], kind, line)
      invariant limits == LimitsOf(eligible, line)
    {
      var p := candidates[i].settings.policy;
      NextCandidate(candidates, i, kind, line);
      if Willing(candidates[i].settings, kind, line) {
        NextLimits(eligible, candidates[i], line);
        eligible := eligible + [candidates[i]];
        limits := limits.(action := Min(limits.action, p.maxAgents));
        if line.Direct? {
          limits := limits.(human := Min(limits.human, p.humanCap), window := Max(limits.window, p.humanWindow));
        }
      }
    }
    assert candidates[..|candidates|] == candidates;
  }

  lemma NoneYet(kind: Trigger, line: Line)
    ensures EligibleOf([], kind, line) == [] && LimitsOf([], line) == Limits(10, 1000, 0)
  {
  }

  lemma NextCandidate(cs: seq<Candidate>, i: nat, kind: Trigger, line: Line)
    requires i < |cs|
    ensures EligibleOf(cs[..i + 1], kind, line)
            == EligibleOf(cs[..i], kind, line) + (if Willing(cs[i].settings, kind, line) then [cs[i]] else [])
  {
    hide Willing;
    assert cs[..i + 1][..i] == cs[..i];
  }

  lemma NextLimits(eligible: seq<Candidate>, c: Candidate, line: Line)
    ensures var r, p := LimitsOf(eligible, line), c.settings.policy;
            LimitsOf(eligible + [c], line)
            == if line.Direct? then Limits(Min(r.action, p.maxAgents), Min(r.human, p.humanCap), Max(r.window, p.humanWindow))
               else r.(action := Min(r.action, p.maxAgents))
  {
    assert (eligible + [c])[..|eligible|] == eligible;
  }

  /** One turn per eligible candidate, in order, until a shared cap is reached. */
  method Serve(opening: Tally, eligible: seq<Candidate>, prior: int, limits: Limits, source: Source, line: Line, clock: Instant)
    returns (r: Option<Tally>)
    ensures r == Turns(opening, eligible, prior, limits, source, line, clock)
  {
    hide Turn, Full;
    var t, i := opening, 0;
    while i < |eligible| && !Full(t, prior, limits, line)
      invariant 0 <= i <= |eligible|
      invariant Turns(t, eligible[i..], prior, limits, source, line, clock) == Turns(opening, eligible, prior, limits, source, line, clock)
    {
      assert eligible[i..][1..] == eligible[i + 1..];
      var next := Turn(t, eligible[i], source, line, clock);
      if next.None? {
        return None;
      }
      t := next.value;
      i := i + 1;
    }
    r := Some(t);
  }

  method AdmitSource(jobs: seq<Job>, source: Source, line: Line, candidates: seq<Candidate>, clock: Instant)
    returns (r: Option<seq<Job>>)
    ensures r == Admit(jobs, source, line, candidates, clock)
  {
    hide Turns, Opening, Prior;
    var eligible, limits := Prepare(candidates, source.kind, line);
    if eligible == [] || clock < source.createdAt {
      return Some(jobs);
    }
    if source.kind == Scheduled || source.action == 0 {
      return None;
    }
    var t := Serve(Opening(jobs, limits, source, line, clock), eligible, Prior(jobs, limits, source, line), limits, source, line, clock);
    r := if t.None? then None else Some(t.value.jobs);
  }

  // ---- What an admission adds ----

  /** A row this admission inserted, and everything that was checked of the table below it. */
  ghost predicate Sealed(jobs: seq<Job>, i: nat, c: Candidate, source: Source, line: Line, clock: Instant)
    requires i < |jobs|
  {
    var o := jobs[i].origin;
    && jobs[i].Valid() && jobs[i].status == Pending
    && c.settings.policy.Valid() && Willing(c.settings, source.kind, line)
    && o.row == i && o.uuid == c.uuid && o.agent == c.settings.agent && o.kind == source.kind && o.key == ActionKey(source.kind, source.action)
    && o.actor == Some(source.actor) && o.cooldown == Some(Cooldown(source, o.agent)) && o.sourcePost == Some(source.post)
    && o.sourceReply == source.reply && o.sourceRepost == source.repost && o.output == OutputReply
    && o.createdAt == clock && o.expiresAt == source.createdAt + Seconds(c.settings.policy.sourceMaxAge)
    && source.createdAt != 0 && source.createdAt <= clock
    && (match line
        case Direct => o.root == i && o.depth == 0
        case Child(parent, root) =>
          o.root == root.origin.row && o.depth == parent.origin.depth + 1
          && o.maxDepth == root.origin.maxDepth && o.maxJobs == root.origin.maxJobs)
    && Allowance(jobs[..i], c.settings, source.post, Cooldown(source, o.agent), clock)
    && !Taken(jobs[..i], o.agent, o.key)
  }

  ghost predicate SealedBy(jobs: seq<Job>, i: nat, cs: seq<Candidate>, source: Source, line: Line, clock: Instant)
    requires i < |jobs|
  {
    exists c :: c in cs && Sealed(jobs, i, c, source, line, clock)
  }

  ghost predicate Extends(before: seq<Job>, after: seq<Job>) {
    |before| <= |after| && after[..|before|] == before
  }

  lemma TurnFacts(t: Tally, c: Candidate, source: Source, line: Line, clock: Instant)
    requires Willing(c.settings, source.kind, line) && Turn(t, c, source, line, clock).Some?
    ensures var r := Turn(t, c, source, line, clock).value;
            r == t || (&& |r.jobs| == |t.jobs| + 1 && r.jobs[..|t.jobs|] == t.jobs
                       && r.enqueued == t.enqueued + 1
                       && r.human == t.human + (if line.Direct? then 1 else 0)
                       && r.chain == t.chain + (if line.Child? then 1 else 0)
                       && !ChainFull(t, c.settings.policy, line)
                       && Sealed(r.jobs, |t.jobs|, c, source, line, clock))
  {
    hide Allowance, Job.Valid, Policy.Valid, ValidContinuation, Willing;
    var r := Turn(t, c, source, line, clock).value;
    if r != t {
      assert r.jobs[..|t.jobs|] == t.jobs;
    }
  }

  lemma SealedStays(before: seq<Job>, after: seq<Job>, i: nat, c: Candidate, source: Source, line: Line, clock: Instant)
    requires Extends(before, after) && i < |before| && Sealed(before, i, c, source, line, clock)
    ensures Sealed(after, i, c, source, line, clock)
  {
    hide Allowance, Job.Valid, Policy.Valid, Willing, Taken;
    assert after[..i] == before[..i];
    assert after[i] == before[i];
  }

  /** Every row a run of turns adds is sealed, and the shared caps hold at the end. */
  lemma {:induction false} TurnsFacts(t: Tally, cs: seq<Candidate>, prior: int, limits: Limits, source: Source, line: Line, clock: Instant)
    requires forall c :: c in cs ==> Willing(c.settings, source.kind, line)
    requires Turns(t, cs, prior, limits, source, line, clock).Some?
    ensures var r := Turns(t, cs, prior, limits, source, line, clock).value;
            && Extends(t.jobs, r.jobs) && r.enqueued == t.enqueued + |r.jobs| - |t.jobs|
            && r.human == t.human + (if line.Direct? then |r.jobs| - |t.jobs| else 0)
            && r.chain == t.chain + (if line.Child? then |r.jobs| - |t.jobs| else 0)
            && (r.jobs != t.jobs ==>
                  && r.enqueued + prior <= limits.action
                  && (line.Direct? ==> r.human <= limits.human)
                  && (line.Child? ==> r.chain <= line.root.origin.maxJobs))
            && forall i :: |t.jobs| <= i < |r.jobs| ==> SealedBy(r.jobs, i, cs, source, line, clock)
    decreases cs
  {
    hide Sealed, Turn, Willing;
    if cs != [] && !Full(t, prior, limits, line) {
      TurnFacts(t, cs[0], source, line, clock);
      var next := Turn(t, cs[0], source, line, clock).value;
      TurnsFacts(next, cs[1..], prior, limits, source, line, clock);
      var r := Turns(t, cs, prior, limits, source, line, clock).value;
      forall i | |t.jobs| <= i < |r.jobs| ensures SealedBy(r.jobs, i, cs, source, line, clock) {
        if i < |next.jobs| {
          SealedStays(next.jobs, r.jobs, i, cs[0], source, line, clock);
        } else {
          assert SealedBy(r.jobs, i, cs[1..], source, line, clock);
          var c :| c in cs[1..] && Sealed(r.jobs, i, c, source, line, clock);
          assert c in cs;
        }
      }
    }
  }

  function Range(low: nat, high: nat): (r: set<nat>)
    requires low <= high
    ensures |r| == high - low
    ensures forall i: nat :: i in r <==> low <= i < high
  {
    if low == high then {} else Range(low, high - 1) + {high - 1}
  }

  /** What admission as a whole establishes of the table it leaves. */
  lemma AdmitFacts(jobs: seq<Job>, source: Source, line: Line, candidates: seq<Candidate>, clock: Instant)
    requires Admit(jobs, source, line, candidates, clock).Some?
    ensures var after := Admit(jobs, source, line, candidates, clock).value;
            && Extends(jobs, after)
            && (forall i :: |jobs| <= i < |after| ==> SealedBy(after, i, candidates, source, line, clock))
            && (after != jobs ==> SharedCaps(jobs, after, source, line, candidates, clock))
  {
    hide Willing, Turns, Sealed;
    var after := Admit(jobs, source, line, candidates, clock).value;
    if after != jobs {
      var eligible := EligibleOf(candidates, source.kind, line);
      var limits := LimitsOf(eligible, line);
      var opening := Opening(jobs, limits, source, line, clock);
      TurnsFacts(opening, eligible, Prior(jobs, limits, source, line), limits, source, line, clock);
      forall i | |jobs| <= i < |after| ensures SealedBy(after, i, candidates, source, line, clock) {
        assert SealedBy(after, i, eligible, source, line, clock);
      }
    }
  }

  /** The strictest eligible caps bound the rows one action adds, together with what the window already held;
      a chain never grows past its root's limit. */
  ghost predicate SharedCaps(jobs: seq<Job>, after: seq<Job>, source: Source, line: Line, candidates: seq<Candidate>, clock: Instant) {
    var limits := LimitsOf(EligibleOf(candidates, source.kind, line), line);
    match line
    case Direct =>
      && |after| - |jobs| <= limits.action
      && |Members(jobs, Human(Some(source.actor), clock - Seconds(limits.window)))| + |after| - |jobs| <= limits.human
    case Child(parent, root) =>
      |Members(jobs, Chain(root.origin.row))| + |after| - |jobs| <= root.origin.maxJobs
  }

  // ---- Admission and execution agree ----

  /** The table at execution: the admission's result, later reservations all strictly after its clock. */
  ghost predicate LaterTable(after: seq<Job>, later: seq<Job>, clock: Instant) {
    && |after| <= |later|
    && (forall i :: 0 <= i < |after| ==> SameRank(after[i].origin, later[i].origin))
    && (forall i :: |after| <= i < |later| ==> later[i].origin.createdAt > clock)
  }

  /** Everything about the batch that the rank checks of one of its jobs depend on. */
  ghost predicate Batch(jobs: seq<Job>, after: seq<Job>, i: nat, c: Candidate, source: Source, clock: Instant) {
    && Extends(jobs, after) && |jobs| <= i < |after|
    && (forall k :: |jobs| <= k < |after| ==> Sibling(after, k, source, clock))
    && Sealed(after, i, c, source, Direct, clock)
  }

  ghost predicate Sibling(after: seq<Job>, k: nat, source: Source, clock: Instant)
    requires k < |after|
  {
    var o := after[k].origin;
    && o.key == ActionKey(source.kind, source.action) && o.createdAt == clock && o.root == k
    && o.cooldown == Some(Cooldown(source, o.agent)) && !Taken(after[..k], o.agent, o.key)
  }

  lemma SiblingsDiffer(after: seq<Job>, i: nat, k: nat, source: Source, clock: Instant)
    requires i < |after| && k < |after| && i != k
    requires Sibling(after, i, source, clock) && Sibling(after, k, source, clock)
    ensures after[i].origin.agent != after[k].origin.agent
  {
    if i < k {
      assert after[..k][i] == after[i];
    } else {
      assert after[..i][k] == after[k];
    }
  }

  /** Among the rows ranked up to the job, its agent has only rows below it and the job itself. */
  lemma AgentRanks(jobs: seq<Job>, after: seq<Job>, later: seq<Job>, i: nat, c: Candidate, source: Source, clock: Instant, g: Group)
    requires Batch(jobs, after, i, c, source, clock) && LaterTable(after, later, clock)
    requires g.Recent? || g.Daily? || g.Conversation?
    requires g.agent == after[i].origin.agent
    ensures UpTo(later, g, later[i].origin) <= Members(after[..i], g) + {i}
    ensures |UpTo(later, g, later[i].origin)| <= |Members(after[..i], g)| + 1
    ensures Before(later, g, later[i].origin) <= Members(after[..i], g)
  {
    hide Sealed, Allowance, Job.Valid;
    var ranked := UpTo(later, g, later[i].origin);
    forall r | r in ranked ensures r in Members(after[..i], g) + {i} {
      if |jobs| <= r < |after| && r != i {
        SiblingsDiffer(after, i, r, source, clock);
      }
      if r < i {
        assert after[..i][r] == after[r];
      }
    }
    SubsetSize(ranked, Members(after[..i], g) + {i});
    assert Before(later, g, later[i].origin) <= ranked - {i};
  }

  lemma CoolingRank(jobs: seq<Job>, after: seq<Job>, later: seq<Job>, i: nat, c: Candidate, source: Source, clock: Instant)
    requires Batch(jobs, after, i, c, source, clock) && LaterTable(after, later, clock)
    ensures var o := later[i].origin;
            Before(later, Cooling(o.cooldown, o.createdAt - Seconds(c.settings.policy.cooldown)), o) == {}
  {
    hide Job.Valid, Willing, Policy.Valid;
    var o := later[i].origin;
    var g := Cooling(o.cooldown, o.createdAt - Seconds(c.settings.policy.cooldown));
    forall r | r in Before(later, g, o) ensures r in Members(after[..i], g) {
      if |jobs| <= r < |after| && r != i {
        SiblingsDiffer(after, i, r, source, clock);
      }
      if r < i {
        assert after[..i][r] == after[r];
      }
    }
    assert Members(after[..i], g) == {};
  }

  /** The action's rank counts only this batch; the window's rank only this batch and what it already held. */
  lemma SharedRanks(jobs: seq<Job>, after: seq<Job>, later: seq<Job>, i: nat, c: Candidate, source: Source, clock: Instant, window: int)
    requires Batch(jobs, after, i, c, source, clock) && LaterTable(after, later, clock)
    requires forall k :: 0 <= k < |jobs| ==> !In(jobs[k].origin, DirectAction(ActionKey(source.kind, source.action)))
    requires c.settings.policy.humanWindow <= window
    ensures |UpTo(later, DirectAction(ActionKey(source.kind, source.action)), later[i].origin)| <= |after| - |jobs|
    ensures |UpTo(later, Human(Some(source.actor), clock - Seconds(c.settings.policy.humanWindow)), later[i].origin)|
            <= |Members(jobs, Human(Some(source.actor), clock - Seconds(window)))| + |after| - |jobs|
  {
    hide Sealed, Allowance, Job.Valid;
    var o := later[i].origin;
    assert Sibling(after, i, source, clock);
    var batch := Range(|jobs|, |after|);
    var action := UpTo(later, DirectAction(ActionKey(source.kind, source.action)), o);
    assert forall k :: 0 <= k < |jobs| ==> after[..|jobs|][k] == after[k];
    assert action <= batch;
    SubsetSize(action, batch);
    var held := Members(jobs, Human(Some(source.actor), clock - Seconds(window)));
    var human := UpTo(later, Human(Some(source.actor), clock - Seconds(c.settings.policy.humanWindow)), o);
    assert human <= held + batch;
    SubsetSize(human, held + batch);
  }

  /** Each row of the batch was inserted under the settings of its own agent. */
  ghost predicate AdmittedUnder(after: seq<Job>, i: nat, c: Candidate, candidates: seq<Candidate>)
    requires i < |after|
  {
    && c in candidates && c.settings.agent == after[i].origin.agent
    && forall d :: d in candidates && d.settings.agent == c.settings.agent ==> d == c
  }

  lemma BatchOf(jobs: seq<Job>, source: Source, candidates: seq<Candidate>, clock: Instant, i: nat, c: Candidate)
    requires Admit(jobs, source, Direct, candidates, clock).Some?
    requires |jobs| <= i < |Admit(jobs, source, Direct, candidates, clock).value|
    requires AdmittedUnder(Admit(jobs, source, Direct, candidates, clock).value, i, c, candidates)
    ensures Batch(jobs, Admit(jobs, source, Direct, candidates, clock).value, i, c, source, clock)
  {
    hide Willing, Allowance, Job.Valid, Policy.Valid, Taken, Admit;
    var after := Admit(jobs, source, Direct, candidates, clock).value;
    AdmitFacts(jobs, source, Direct, candidates, clock);
    forall k | |jobs| <= k < |after| ensures Sibling(after, k, source, clock) {
      assert SealedBy(after, k, candidates, source, Direct, clock);
    }
    assert SealedBy(after, i, candidates, source, Direct, clock);
  }

  lemma SocialAgrees(jobs: seq<Job>, after: seq<Job>, later: seq<Job>, i: nat, c: Candidate, source: Source,
                     candidates: seq<Candidate>, clock: Instant, now: Instant)
    requires Batch(jobs, after, i, c, source, clock) && LaterTable(after, later, clock)
    requires SharedCaps(jobs, after, source, Direct, candidates, clock) && c in candidates && Willing(c.settings, source.kind, Direct)
    requires forall k :: 0 <= k < |jobs| ==> !In(jobs[k].origin, DirectAction(ActionKey(source.kind, source.action)))
    requires source.kind != Continuation && clock <= now < later[i].origin.expiresAt
    ensures SocialAllowed(later, later[i].origin, c.settings.policy, Some(source.createdAt), now)
  {
    hide Job.Valid, Policy.Valid, UpTo, Before, Members, Taken;
    var o := later[i].origin;
    var p := c.settings.policy;
    assert c in EligibleOf(candidates, source.kind, Direct);
    AgentRanks(jobs, after, later, i, c, source, clock, Conversation(o.agent, o.sourcePost));
    CoolingRank(jobs, after, later, i, c, source, clock);
    SharedRanks(jobs, after, later, i, c, source, clock, LimitsOf(EligibleOf(candidates, source.kind, Direct), Direct).window);
  }

  /** A direct social job keeps passing every execution check until its expiry, whatever reservations later
      transactions insert: under the policy that admitted it, with a token budget, its source alive, publication
      spacing elapsed, its action hooked once, and strictly later clocks. */
  lemma AdmissionAgrees(jobs: seq<Job>, source: Source, candidates: seq<Candidate>, clock: Instant, i: nat, c: Candidate,
                        later: seq<Job>, lastPublished: Option<Instant>, now: Instant)
    requires Admit(jobs, source, Direct, candidates, clock).Some?
    requires var after := Admit(jobs, source, Direct, candidates, clock).value;
             && |jobs| <= i < |after| && AdmittedUnder(after, i, c, candidates)
             && LaterTable(after, later, clock)
    requires forall k :: 0 <= k < |jobs| ==> !In(jobs[k].origin, DirectAction(ActionKey(source.kind, source.action)))
    requires later[i].Valid() && source.kind != Continuation
    requires c.settings.policy.dailyTokens != 0
    requires lastPublished.Some? ==> now >= lastPublished.value + c.settings.policy.Spacing()
    requires clock <= now < later[i].origin.expiresAt && now != 0
    ensures Allowed(later, later[i], c.settings.policy, lastPublished, Some(source.createdAt), now)
  {
    hide Policy.Valid, UpTo, Before, Members, Taken, SocialAllowed, SharedCaps, Admit;
    var after := Admit(jobs, source, Direct, candidates, clock).value;
    var o := later[i].origin;
    var p := c.settings.policy;
    AdmitFacts(jobs, source, Direct, candidates, clock);
    BatchOf(jobs, source, candidates, clock, i, c);
    SocialAgrees(jobs, after, later, i, c, source, candidates, clock, now);
    AgentRanks(jobs, after, later, i, c, source, clock, Recent(o.agent, o.createdAt - p.Spacing()));
    AgentRanks(jobs, after, later, i, c, source, clock, DayGroup(o, p));
  }
}
