/** Admission and execution agree along whole runs: what a human action's hook reserves keeps its place. */
module Agreement {
  import opened Basics
  import opened Policies
  import opened Attempts
  import opened Jobs
  import opened Eligibility
  import opened Admission
  import opened Tables
  import opened Transactions
  import opened Operations
  import opened Protocol
  import opened Effects
  import opened Growth
  import opened Changes
  import opened Invariants
  import Frames
  import Revocation
  import Schedule
  import Timely

  // ---- Action ids are used once ----

  /** A direct social row's key names an action that is there; reposts may have been withdrawn since. */
  ghost predicate KeyBacked(db: Db, o: Origin) {
    o.depth == 0 && o.key.ActionKey? ==>
      match o.key.kind
      case ReplyTrigger => o.key.action in db.replies
      case HumanPost => o.key.action in db.posts
      case QuoteTrigger => o.key.action in db.posts
      case _ => true
  }

  ghost predicate Keyed(db: Db) {
    forall i :: 0 <= i < |db.jobs| ==> KeyBacked(db, db.jobs[i].origin)
  }

  lemma BackedStays(before: Db, after: Db, o: Origin, p: Origin)
    requires SourcesGrow(before, after) && KeyBacked(before, o) && SameRank(p, o)
    ensures KeyBacked(after, p)
  {
  }

  /** Rows an action reserves are keyed by it. */
  lemma ActKeys(db: Db, e: Event)
    requires db.Shaped() && e.DoAct? && Act(db, e.kind, e.action, e.actor, e.target, e.content, e.written, e.picks, e.now).Commit?
    ensures var after := DbAfter(db, e);
            forall i :: |db.jobs| <= i < |after.jobs| ==> KeyBacked(after, after.jobs[i].origin)
  {
    hide Admit, WriteAction, SocialSource, CandidatesOf, KeyBacked;
    var written := WriteAction(db, e.kind, e.action, e.actor, e.target, e.content, e.written).value;
    Timely.WrittenJobs(db, e.kind, e.action, e.actor, e.target, e.content, e.written);
    var source := SocialSource(written, e.kind, e.action).value;
    var candidates := CandidatesOf(written, e.picks, e.actor);
    AdmitFacts(written.jobs, source, Direct, candidates, e.now);
    var after := DbAfter(db, e);
    forall i | |db.jobs| <= i < |after.jobs| ensures KeyBacked(after, after.jobs[i].origin) {
      assert SealedBy(after.jobs, i, candidates, source, Direct, e.now);
      SealedKey(after.jobs, i, candidates, source, e.now);
      SourceBacked(written, after, e.kind, e.action, source, after.jobs[i].origin);
    }
  }

  lemma SealedKey(jobs: seq<Job>, i: nat, cs: seq<Candidate>, source: Source, clock: Instant)
    requires i < |jobs| && SealedBy(jobs, i, cs, source, Direct, clock)
    ensures jobs[i].origin.key == ActionKey(source.kind, source.action)
  {
    hide Allowance, Job.Valid, Policy.Valid, Willing, Taken;
  }

  lemma SourceBacked(db: Db, after: Db, kind: Trigger, action: Id, source: Source, o: Origin)
    requires SocialSource(db, kind, action) == Some(source) && o.key == ActionKey(source.kind, source.action)
    requires after.posts == db.posts && after.replies == db.replies
    ensures KeyBacked(after, o)
  {
  }

  lemma NewKeys(w: World, e: Event, c: Change)
    requires Inv(w) && Explains(w, Apply(w, e), c) && Causes(w, e, c)
    ensures var after := DbAfter(w.db, e);
            forall i :: |w.db.jobs| <= i < |after.jobs| ==> KeyBacked(after, after.jobs[i].origin)
  {
    hide RowSound, Chains.Chained, HistoryAfter, DbAfter, Around, JobStep, ReservationFacts, ValidAttemptTransition, KeyBacked, RetryCommitted,
         PublicationChecked, Inserted, Grew, RequeueFacts;
    match c
    case Publishing(row, version, p) =>
      ChildKeys(w.db.WithJob(row, Printed(w.db.jobs[row], p)), DbAfter(w.db, e), w.db.jobs[row].origin.root);
    case Extending(root) =>
      if root.Some? {
        ChildKeys(w.db, DbAfter(w.db, e), root.value);
      } else {
        RootKeys(w, e);
      }
    case _ =>
  }

  lemma ChildKeys(before: Db, after: Db, root: nat)
    requires Grew(before, after, Some(root))
    ensures forall i :: |before.jobs| <= i < |after.jobs| ==> KeyBacked(after, after.jobs[i].origin)
  {
    hide Job.Valid, Members;
    forall i | |before.jobs| <= i < |after.jobs| ensures KeyBacked(after, after.jobs[i].origin) {
      assert NewRow(after.jobs, i, Some(root));
    }
  }

  lemma RootKeys(w: World, e: Event)
    requires Inv(w) && Growing(w.db, DbAfter(w.db, e), None) && (e.DoSchedule? || e.DoAct? || e.DoContinue?)
    ensures var after := DbAfter(w.db, e);
            forall i :: |w.db.jobs| <= i < |after.jobs| ==> KeyBacked(after, after.jobs[i].origin)
  {
    hide RowSound, Chains.Chained, Act, Continue, ScheduleAgent, KeyBacked, Growing, Grew;
    match e
    case DoAct(kind, action, actor, target, content, written, picks, now) =>
      if Act(w.db, kind, action, actor, target, content, written, picks, now).Commit? {
        ActKeys(w.db, e);
      }
    case DoSchedule(agent, now, draw, uuid) => SlotKeys(w.db, e);
    case DoContinue(row, picks, now) =>
      if row < |w.db.jobs| {
        RowsAligned(w, row);
      }
      ContinueGrows(w.db, row, picks, now);
      if Continue(w.db, row, picks, now).Commit? {
        GrowingGrew(w.db, DbAfter(w.db, e), Some(w.db.jobs[row].origin.root));
        ChildKeys(w.db, DbAfter(w.db, e), w.db.jobs[row].origin.root);
      }
  }

  lemma GrowingGrew(before: Db, after: Db, root: Option<nat>)
    requires Growing(before, after, root)
    ensures Grew(before, after, root)
  {
    hide Grew, Around;
  }

  lemma SlotKeys(db: Db, e: Event)
    requires db.Shaped() && e.DoSchedule?
    ensures forall i :: |db.jobs| <= i < |DbAfter(db, e).jobs| ==> DbAfter(db, e).jobs[i].origin.key.SlotKey?
    ensures forall i :: |db.jobs| <= i < |DbAfter(db, e).jobs| ==> KeyBacked(DbAfter(db, e), DbAfter(db, e).jobs[i].origin)
  {
    hide Job.Valid, Schedule.Advance, Settings.Valid, Members, SlotDay, Taken;
  }

  lemma KeyedStays(w: World, e: Event)
    requires Inv(w) && Honest(w, e) && Keyed(w.db)
    ensures Inv(Apply(w, e)) && Keyed(Apply(w, e).db)
  {
    hide RowSound, Chains.Chained, DbAfter, HistoryAfter, Explains, Causes, Honest, KeyBacked;
    var c := EventSound(w, e);
    var after := Apply(w, e).db;
    NewKeys(w, e, c);
    Revocation.ChangeGrows(w, Apply(w, e), c);
    forall i | 0 <= i < |after.jobs| ensures KeyBacked(after, after.jobs[i].origin) {
      if i < |w.db.jobs| {
        assert Revocation.RowGrows(w.db, after, i);
        BackedStays(w.db, after, w.db.jobs[i].origin, after.jobs[i].origin);
      }
    }
  }

  lemma {:induction false} RunKeyed(w: World, events: seq<Event>)
    requires Inv(w) && HonestRun(w, events) && Keyed(w.db)
    ensures Keyed(Run(w, events).db)
    decreases |events|
  {
    hide RowSound, Chains.Chained, Apply, Honest, Keyed;
    if events != [] {
      KeyedStays(w, events[0]);
      RunKeyed(Apply(w, events[0]), events[1..]);
    }
  }

  // ---- What the rest of a run leaves of a row ----

  ghost predicate AllLater(events: seq<Event>, clock: Instant) {
    forall i, t :: 0 <= i < |events| && t in Timely.Times(events[i]) ==> t > clock
  }

  /** Rows stay in place and rank, content stays, and new rows are created later. */
  ghost predicate LaterDb(before: Db, after: Db, clock: Instant) {
    before.Shaped() && after.Shaped() && Revocation.Grows(before, after)
    && forall i :: |before.jobs| <= i < |after.jobs| ==> after.jobs[i].origin.createdAt > clock
  }

  lemma GrowsChain(a: Db, b: Db, c: Db)
    requires a.Shaped() && b.Shaped() && c.Shaped() && Revocation.Grows(a, b) && Revocation.Grows(b, c)
    ensures Revocation.Grows(a, c)
  {
    forall row | 0 <= row < |a.jobs| ensures Revocation.RowGrows(a, c, row) {
      assert Revocation.RowGrows(a, b, row) && Revocation.RowGrows(b, c, row);
    }
  }

  lemma LaterChain(a: Db, b: Db, c: Db, clock: Instant)
    requires LaterDb(a, b, clock) && LaterDb(b, c, clock)
    ensures LaterDb(a, c, clock)
  {
    hide Around;
    GrowsChain(a, b, c);
    forall i | |a.jobs| <= i < |c.jobs| ensures c.jobs[i].origin.createdAt > clock {
      if i < |b.jobs| {
        assert Revocation.RowGrows(b, c, i);
      }
    }
  }

  lemma EventLater(w: World, e: Event, clock: Instant)
    requires Inv(w) && Honest(w, e) && forall t :: t in Timely.Times(e) ==> t > clock
    ensures Inv(Apply(w, e)) && LaterDb(w.db, Apply(w, e).db, clock)
  {
    hide RowSound, Chains.Chained, DbAfter, HistoryAfter, Explains, Causes, Honest, Revocation.Grows, Timely.Times;
    var c := EventSound(w, e);
    Timely.NewRowsCreated(w, e, c);
    Revocation.ChangeGrows(w, Apply(w, e), c);
  }

  lemma LaterRefl(db: Db, clock: Instant)
    requires db.Shaped()
    ensures LaterDb(db, db, clock)
  {
  }

  lemma {:induction false} RunLater(w: World, events: seq<Event>, clock: Instant)
    requires Inv(w) && HonestRun(w, events) && AllLater(events, clock)
    ensures LaterDb(w.db, Run(w, events).db, clock)
    decreases |events|
  {
    hide RowSound, Chains.Chained, Apply, Honest, LaterDb, Timely.Times;
    if events == [] {
      LaterRefl(w.db, clock);
    } else {
      EventLater(w, events[0], clock);
      RunLater(Apply(w, events[0]), events[1..], clock);
      LaterChain(w.db, Apply(w, events[0]).db, Run(w, events).db, clock);
    }
  }

  // ---- Reposts a row still refers to ----

  /** A repost that a row still refers to is still there, unchanged. */
  ghost predicate RepostKept(before: Db, after: Db, row: nat) {
    row < |before.jobs| && row < |after.jobs|
    && (after.jobs[row].origin.sourceRepost.Some? ==>
          && before.jobs[row].origin.sourceRepost == after.jobs[row].origin.sourceRepost
          && var r := after.jobs[row].origin.sourceRepost.value;
             r in before.reposts ==> r in after.reposts && after.reposts[r] == before.reposts[r])
  }

  /** An action only ever adds a repost, under a new id. */
  lemma ActReposts(db: Db, e: Event)
    requires db.Shaped() && e.DoAct?
    ensures forall r :: r in db.reposts ==> r in DbAfter(db, e).reposts && DbAfter(db, e).reposts[r] == db.reposts[r]
  {
    hide SocialSource, Admit, CandidatesOf;
  }

  /** A withdrawn repost is no longer referred to. */
  lemma WithdrawnReposts(db: Db, e: Event, row: nat)
    requires db.Shaped() && e.DoRemoveRepost? && row < |db.jobs| && row < |DbAfter(db, e).jobs|
    requires DbAfter(db, e).jobs[row].origin.sourceRepost.Some?
    ensures var r := DbAfter(db, e).jobs[row].origin.sourceRepost.value;
            r in db.reposts ==> r in DbAfter(db, e).reposts && DbAfter(db, e).reposts[r] == db.reposts[r]
  {
    hide CancelRemoved, Quiet;
    var seen := Unreposted(db, e.repost, e.post);
    Frames.CancelFrame(seen, e.post, e.rows, e.now);
    CancelQuiet(seen, e.post, e.rows, e.now);
    QuietOrigin(seen, Kept(seen, CancelRemoved(seen, e.post, e.rows, e.now)), row);
  }

  lemma QuietOrigin(before: Db, after: Db, row: nat)
    requires Quiet(before, after) && row < |before.jobs|
    ensures after.jobs[row].origin.sourceRepost.Some? ==> after.jobs[row].origin.sourceRepost == before.jobs[row].origin.sourceRepost
  {
    hide Job.Valid, Around;
    assert JobStep(before.jobs[row], after.jobs[row]);
  }

  lemma EventRepost(w: World, e: Event, row: nat)
    requires Inv(w) && Honest(w, e) && row < |w.db.jobs|
    ensures Inv(Apply(w, e)) && RepostKept(w.db, Apply(w, e).db, row)
  {
    hide RowSound, Chains.Chained, DbAfter, HistoryAfter, Explains, Causes, Honest, Around;
    var c := EventSound(w, e);
    var after := Apply(w, e).db;
    Revocation.ChangeGrows(w, Apply(w, e), c);
    assert Revocation.RowGrows(w.db, after, row);
    if after.jobs[row].origin.sourceRepost.Some? {
      if e.DoAct? {
        ActReposts(w.db, e);
      } else if e.DoRemoveRepost? {
        WithdrawnReposts(w.db, e, row);
      } else {
        Frames.RepostsSame(w.db, e);
      }
    }
  }

  lemma {:induction false} RunRepost(w: World, events: seq<Event>, row: nat)
    requires Inv(w) && HonestRun(w, events) && row < |w.db.jobs|
    ensures RepostKept(w.db, Run(w, events).db, row)
    decreases |events|
  {
    hide RowSound, Chains.Chained, Apply, Honest;
    if events != [] {
      EventRepost(w, events[0], row);
      RunRepost(Apply(w, events[0]), events[1..], row);
    }
  }

  // ---- The agreement ----

  ghost predicate DistinctPicks(picks: seq<Pick>) {
    forall i, j :: 0 <= i < j < |picks| ==> picks[i].agent != picks[j].agent
  }

  /** Candidates carry their agent's stored settings, one for each agent picked. */
  lemma {:induction false} CandidateOfPick(db: Db, picks: seq<Pick>, actor: Id, c: Candidate)
    requires c in CandidatesOf(db, picks, actor)
    ensures c.settings.agent in db.settings && c.settings == db.settings[c.settings.agent]
    ensures exists i :: 0 <= i < |picks| && picks[i].agent == c.settings.agent
    ensures DistinctPicks(picks) ==>
              forall d :: d in CandidatesOf(db, picks, actor) && d.settings.agent == c.settings.agent ==> d == c
    decreases picks
  {
    hide Settings.Valid;
    var n := |picks| - 1;
    var front := CandidatesOf(db, picks[..n], actor);
    if c in front {
      CandidateOfPick(db, picks[..n], actor, c);
      var i :| 0 <= i < n && picks[..n][i].agent == c.settings.agent;
      assert picks[i].agent == c.settings.agent;
    }
    if DistinctPicks(picks) {
      forall d | d in front ensures d.settings.agent != picks[n].agent {
        CandidateOfPick(db, picks[..n], actor, d);
      }
    }
  }

  /** A fresh action: no row is keyed by it. For reposts, whose rows go when withdrawn, the fresh id is a premise. */
  lemma FreshAction(db: Db, kind: Trigger, action: Id, actor: Id, target: Option<Id>, content: Content, at: Instant)
    requires Keyed(db) && WriteAction(db, kind, action, actor, target, content, at).Some?
    requires kind == RepostTrigger ==> forall k :: 0 <= k < |db.jobs| ==> db.jobs[k].origin.key != ActionKey(RepostTrigger, action)
    ensures forall k :: 0 <= k < |db.jobs| ==> !In(db.jobs[k].origin, DirectAction(ActionKey(kind, action)))
  {
    forall k | 0 <= k < |db.jobs| ensures !In(db.jobs[k].origin, DirectAction(ActionKey(kind, action))) {
      assert KeyBacked(db, db.jobs[k].origin);
    }
  }

  /** The instant execution reads for a source that is still there is the one admission read. */
  lemma SourceStays(written: Db, after: Db, kind: Trigger, action: Id, source: Source, o: Origin)
    requires SocialSource(written, kind, action) == Some(source)
    requires o.kind == source.kind && o.sourcePost == Some(source.post) && o.sourceReply == source.reply
    requires o.sourceRepost == source.repost || o.sourceRepost.None?
    requires SourcesGrow(written, after) && SourceValid(after, o)
    requires o.sourceRepost.Some? && o.sourceRepost.value in written.reposts ==>
               o.sourceRepost.value in after.reposts && after.reposts[o.sourceRepost.value] == written.reposts[o.sourceRepost.value]
    ensures SourceCreated(after, o) == Some(source.createdAt)
  {
  }

  /** What a committed action's hook reserved, and from what. */
  ghost predicate Hooked(db: Db, e: Event, after: Db, i: nat, written: Db, source: Source, c: Candidate)
    requires e.DoAct?
  {
    && WriteAction(db, e.kind, e.action, e.actor, e.target, e.content, e.written) == Some(written)
    && written.jobs == db.jobs && written.settings == db.settings
    && SocialSource(written, e.kind, e.action) == Some(source)
    && Admit(db.jobs, source, Direct, CandidatesOf(written, e.picks, e.actor), e.now) == Some(after.jobs)
    && |db.jobs| <= i < |after.jobs| && after.posts == written.posts && after.replies == written.replies && after.reposts == written.reposts
    && AdmittedUnder(after.jobs, i, c, CandidatesOf(written, e.picks, e.actor))
    && after.jobs[i].origin.agent in db.settings && c.settings == db.settings[after.jobs[i].origin.agent]
    && Sealed(after.jobs, i, c, source, Direct, e.now)
  }

  lemma HookOf(db: Db, e: Event, i: nat) returns (written: Db, source: Source, c: Candidate)
    requires db.Shaped() && e.DoAct? && DistinctPicks(e.picks)
    requires |db.jobs| <= i < |DbAfter(db, e).jobs|
    ensures Hooked(db, e, DbAfter(db, e), i, written, source, c)
  {
    hide Admit, WriteAction, SocialSource, CandidatesOf, Sealed;
    written := WriteAction(db, e.kind, e.action, e.actor, e.target, e.content, e.written).value;
    WrittenSettings(db, e);
    source := SocialSource(written, e.kind, e.action).value;
    var candidates := CandidatesOf(written, e.picks, e.actor);
    AdmitFacts(db.jobs, source, Direct, candidates, e.now);
    var rows := DbAfter(db, e).jobs;
    assert SealedBy(rows, i, candidates, source, Direct, e.now);
    c :| c in candidates && Sealed(rows, i, c, source, Direct, e.now);
    CandidateOfPick(written, e.picks, e.actor, c);
    SealedAgent(rows, i, c, source, e.now);
  }

  lemma WrittenSettings(db: Db, e: Event)
    requires e.DoAct?
    ensures var r := WriteAction(db, e.kind, e.action, e.actor, e.target, e.content, e.written);
            r.Some? ==> r.value.jobs == db.jobs && r.value.settings == db.settings
  {
  }

  lemma SealedAgent(jobs: seq<Job>, i: nat, c: Candidate, source: Source, clock: Instant)
    requires i < |jobs| && Sealed(jobs, i, c, source, Direct, clock)
    ensures var o := jobs[i].origin;
            && o.agent == c.settings.agent && o.kind == source.kind && o.sourcePost == Some(source.post) && o.sourceReply == source.reply
            && o.sourceRepost == source.repost
  {
    hide Allowance, Job.Valid, Policy.Valid, Willing, Taken;
  }

  /** A direct social job admitted in a reachable state keeps passing every execution check until it expires, along any run
      whose later clocks are strictly later: under the policy that admitted it, with a token budget, its source alive and
      publication spacing elapsed. */
  lemma AdmissionHolds(db: Db, earlier: seq<Event>, act: Event, later: seq<Event>, i: nat, now: Instant)
    requires db.jobs == [] && db.attempts == [] && HonestRun(Start(db), earlier)
    requires act.DoAct? && DistinctPicks(act.picks) && AllLater(later, act.now)
    requires var w := Run(Start(db), earlier);
             && HonestRun(w, [act] + later) && |w.db.jobs| <= i < |Apply(w, act).db.jobs|
             && (act.kind == RepostTrigger ==>
                   forall k :: 0 <= k < |w.db.jobs| ==> w.db.jobs[k].origin.key != ActionKey(RepostTrigger, act.action))
    requires var after := Run(Run(Start(db), earlier), [act] + later).db;
             && i < |after.jobs|
             && var job := after.jobs[i];
             && StillGranted(Run(Start(db), earlier).db, after, job, now)
             && act.now <= now < job.origin.expiresAt && now != 0
    ensures var after := Run(Run(Start(db), earlier), [act] + later).db;
            PolicyAllows(after, after.jobs[i], after.settings[after.jobs[i].origin.agent], now)
  {
    hide RowSound, Chains.Chained, DbAfter, HistoryAfter, Honest, HonestRun, Run, Keyed, AllLater, PolicyAllows, SourceValid;
    var w := Run(Start(db), earlier);
    StartKeyed(db);
    RunKeyed(Start(db), earlier);
    Revocation.RunFirst(w, act, later);
    var mid, after := Apply(w, act), Run(w, [act] + later);
    RunLater(mid, later, act.now);
    RunRepost(mid, later, i);
    HookHolds(w.db, act, i, mid.db, after.db, now, after);
  }

  lemma StartKeyed(db: Db)
    requires db.jobs == [] && db.attempts == []
    ensures Keyed(Start(db).db)
  {
  }

  /** The policy in force is the one the row was admitted under, and nothing else speaks against it. */
  ghost predicate StillGranted(before: Db, after: Db, job: Job, now: Instant) {
    && job.origin.agent in before.settings && job.origin.agent in after.settings
    && var s := after.settings[job.origin.agent];
    && s.policy == before.settings[job.origin.agent].policy && s.policy.dailyTokens != 0
    && (s.lastPublishedAt.Some? ==> now >= s.lastPublishedAt.value + s.policy.Spacing())
    && SourceValid(after, job.origin)
  }

  lemma HookHolds(db: Db, act: Event, i: nat, mid: Db, after: Db, now: Instant, w: World)
    requires db.Shaped() && act.DoAct? && DistinctPicks(act.picks) && Keyed(db) && mid == DbAfter(db, act) && mid.Shaped()
    requires |db.jobs| <= i < |mid.jobs| && LaterDb(mid, after, act.now) && RepostKept(mid, after, i)
    requires act.kind == RepostTrigger ==>
               forall k :: 0 <= k < |db.jobs| ==> db.jobs[k].origin.key != ActionKey(RepostTrigger, act.action)
    requires Inv(w) && w.db == after && i < |after.jobs| && StillGranted(db, after, after.jobs[i], now)
    requires act.now <= now < after.jobs[i].origin.expiresAt && now != 0
    ensures PolicyAllows(after, after.jobs[i], after.settings[after.jobs[i].origin.agent], now)
  {
    hide Inv, Keyed, DbAfter, Admit, CandidatesOf, Sealed, Allowed, SourceValid, SocialSource, WriteAction, SourceCreated;
    var written, source, c := HookOf(db, act, i);
    Revocation.RowValid(w, i);
    SealedAgent(mid.jobs, i, c, source, act.now);
    FreshAction(db, act.kind, act.action, act.actor, act.target, act.content, act.written);
    SourceKind(written, act.kind, act.action);
    assert Revocation.RowGrows(mid, after, i);
    SourceStays(written, after, act.kind, act.action, source, after.jobs[i].origin);
    RanksStay(mid, after, act.now);
    AdmissionAgrees(db.jobs, source, CandidatesOf(written, act.picks, act.actor), act.now, i, c, after.jobs,
                    after.settings[after.jobs[i].origin.agent].lastPublishedAt, now);
  }

  lemma RanksStay(before: Db, after: Db, clock: Instant)
    requires LaterDb(before, after, clock)
    ensures LaterTable(before.jobs, after.jobs, clock)
  {
    hide Around;
    forall i | 0 <= i < |before.jobs| ensures SameRank(before.jobs[i].origin, after.jobs[i].origin) {
      assert Revocation.RowGrows(before, after, i);
    }
  }

  lemma SourceKind(db: Db, kind: Trigger, action: Id)
    ensures var r := SocialSource(db, kind, action); r.Some? ==> r.value.kind == kind && r.value.action == action && kind != Continuation
  {
  }
}
