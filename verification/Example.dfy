/** A run that publishes: a human post is answered by an agent, step by step. The protocol's theorems are about runs
    like this one, so none of them holds merely because nothing can happen. */
module Example {
  import opened Basics
  import opened Zones
  import opened Policies
  import opened Attempts
  import opened Jobs
  import opened Eligibility
  import opened Admission
  import opened Tables
  import opened Transactions
  import opened Operations
  import opened Protocol
  import opened Invariants
  import Crew
  import W = Worker

  const HUMAN: Id := 1
  const AGENT: Id := 2
  const POST: Id := 10
  const REPLY: Id := 20
  const NOW: Instant := 63_000_000_000_000_000
  const LATER: Instant := 63_000_000_001_000_000
  const UTC: Zone := Zone("UTC", 0, [])

  const POLICY: Policy := Policy(
    1, UTC, 0, 1439, 0, 0, 60, 0, 0, 3600, 10000, 10000, 10000, 10000, 0, 60, 0, 10, 10, 5, 10, 3600, 0, 1, 200000)

  const SETTINGS: Settings := Settings(AGENT, 1, true, 0, POLICY, None, None, 0, None, NOW)

  const START: Db := Db([], [], map[AGENT := SETTINGS], map[HUMAN := Account(false, false), AGENT := Account(true, false)], map[], map[], map[])

  const QUESTION: Content := Content("a question", None)
  const ANSWER: Result := Result(Publish, OutputReply, Content("an answer", None), NoCode)
  const PICK: Pick := Pick(AGENT, 7, 0, 0)

  // ---- The rows the run goes through ----

  const ORIGIN: Origin := Origin(0, 7, AGENT, 1, HumanPost, ActionKey(HumanPost, POST), Some(HUMAN),
    Some(CooldownKey(HUMAN, AGENT, POST, HumanPost)), Some(POST), None, None, OutputReply, 0, 0, 0, 1, NOW, NOW + 3_600_000_000)

  const PENDING: Job := Job(ORIGIN, Pending, NOW, 0, None, None, None, None, NoCode, None)
  const RUNNING: Job := Job(ORIGIN, Running, NOW, 1, Some(NOW + 90_000_000), None, None, None, NoCode, None)
  const DONE: Job := Job(ORIGIN, JobSucceeded, NOW, 1, None, None, Some(REPLY), Some(1), NoCode, Some(LATER))

  const RESERVED: Attempt := Attempt(0, 1, 1, Some(0), 5, None, None, NoCode, None, DateOf(NOW), RESERVED_TOKENS, None, None,
    Reserved, NoCode, None, NOW, None)
  const SETTLED: Attempt := RESERVED.(digest := Some(ANSWER), decision := Some(Publish), input := Some(100), output := Some(20),
    status := Succeeded, finishedAt := Some(NOW))

  const POSTED: Db := START.(posts := map[POST := Post(HUMAN, None, false, NOW, QUESTION)])
  const ENQUEUED: Db := POSTED.(jobs := [PENDING], attempts := [[]])
  const CLAIMED: Db := POSTED.(jobs := [RUNNING], attempts := [[]])
  const ADMITTED: Db := POSTED.(jobs := [RUNNING], attempts := [[RESERVED]])
  const ANSWERED: Db := POSTED.(jobs := [RUNNING], attempts := [[SETTLED]])
  const PUBLISHED: Db := POSTED.(jobs := [DONE], attempts := [[SETTLED]],
    settings := map[AGENT := SETTINGS.(lastPublishedAt := Some(LATER), updatedAt := LATER)],
    replies := map[REPLY := Reply(POST, AGENT, false, LATER, Content("an answer", None))])

  const READINGS: Readings := Readings(NOW, NOW, NOW)
  const OUTCOME: Outcome := Outcome(Some(ANSWER), NoCode, None, Some(100), Some(20))
  const PRINTING: Printing := Printing(1, ANSWER, REPLY, true, [], LATER, LATER, LATER)

  lemma PolicyFits()
    ensures UTC.Valid() && POLICY.Valid() && SETTINGS.Valid() && SETTINGS.Ready()
  {
  }

  lemma RowsFit()
    ensures PENDING.Valid() && RUNNING.Valid() && DONE.Valid() && RESERVED.Valid() && SETTLED.Valid()
    ensures RUNNING.Leased(1, NOW) && RUNNING.Leased(1, LATER)
  {
  }

  // ---- The steps ----

  lemma Writes()
    ensures WriteAction(START, HumanPost, POST, HUMAN, None, QUESTION, NOW) == Some(POSTED)
    ensures SocialSource(POSTED, HumanPost, POST) == Some(SOURCE)
  {
  }

  lemma Enqueues()
    ensures Act(START, HumanPost, POST, HUMAN, None, QUESTION, NOW, [PICK], NOW) == Commit(ENQUEUED, ())
  {
    hide WriteAction, SocialSource, CandidatesOf, Admit;
    Writes();
    OneCandidate();
    AdmitsOne();
    WithOneRow();
  }

  lemma WithOneRow()
    ensures WithAdmitted(POSTED, Some([PENDING])) == Commit(ENQUEUED, ())
  {
    assert [] + seq<seq<Attempt>>(1, _ => []) == [[]];
  }

  lemma OneCandidate()
    ensures CandidatesOf(POSTED, [PICK], HUMAN) == [Candidate(SETTINGS, 7, 0, 0)]
  {
    hide Settings.Valid, Policy.Valid;
    PolicyFits();
    assert [PICK][..0] == [];
    assert CandidatesOf(POSTED, [], HUMAN) == [];
  }

  const CANDIDATE: Candidate := Candidate(SETTINGS, 7, 0, 0)
  const SOURCE: Source := Source(HumanPost, POST, HUMAN, POST, None, None, NOW)

  lemma OneWilling()
    ensures EligibleOf([CANDIDATE], HumanPost, Direct) == [CANDIDATE]
    ensures LimitsOf([CANDIDATE], Direct) == Limits(5, 10, 3600)
  {
    NoneYet(HumanPost, Direct);
    NextCandidate([CANDIDATE], 0, HumanPost, Direct);
    assert [CANDIDATE][..0] == [] && [CANDIDATE][..1] == [CANDIDATE] && [] + [CANDIDATE] == [CANDIDATE];
    NextLimits([], CANDIDATE, Direct);
  }

  lemma OneTurn()
    ensures Turns(Tally([], 0, 0, 0), [CANDIDATE], 0, Limits(5, 10, 3600), SOURCE, Direct, NOW) == Some(Tally([PENDING], 1, 1, 0))
  {
    hide Turn;
    TakesTurn();
    var one := Tally([PENDING], 1, 1, 0);
    assert [CANDIDATE][1..] == [];
    assert Turns(one, [], 0, Limits(5, 10, 3600), SOURCE, Direct, NOW) == Some(one);
  }

  lemma AdmitsOne()
    ensures Admit([], SOURCE, Direct, [CANDIDATE], NOW) == Some([PENDING])
  {
    hide Turns, Opening, Prior, EligibleOf, LimitsOf;
    OneWilling();
    OpensEmpty();
    OneTurn();
  }

  lemma OpensEmpty()
    ensures Opening([], Limits(5, 10, 3600), SOURCE, Direct, NOW) == Tally([], 0, 0, 0)
    ensures Prior([], Limits(5, 10, 3600), SOURCE, Direct) == 0
  {
    NoMembers();
  }

  lemma NoMembers()
    ensures forall g :: Members([], g) == {}
  {
  }

  lemma EmptyAllows()
    ensures Allowance([], SETTINGS, POST, Cooldown(SOURCE, AGENT), NOW)
  {
    hide LocalDay, Members;
    NoMembers();
  }

  lemma TakesTurn()
    ensures Turn(Tally([], 0, 0, 0), CANDIDATE, SOURCE, Direct, NOW) == Some(Tally([PENDING], 1, 1, 0))
  {
    hide Policy.Valid, Job.Valid, Allowance, ResponseTiming, NewJob, Taken;
    RowsFit();
    EmptyAllows();
    InTime();
    NothingTaken();
    assert [] + [PENDING] == [PENDING];
  }

  lemma NothingTaken()
    ensures !Taken([], AGENT, ORIGIN.key)
  {
  }

  lemma InTime()
    ensures ResponseTiming(POLICY, NOW, NOW, 0) == Some((NOW, NOW + 3_600_000_000))
    ensures NewJob(0, CANDIDATE, SOURCE, Direct, NOW, (NOW, NOW + 3_600_000_000)) == PENDING
  {
    hide Policy.Valid;
    PolicyFits();
  }

  lemma Claims()
    ensures Claim(ENQUEUED, 0, NOW, NOW) == Commit(CLAIMED, Some(RUNNING))
  {
    hide Job.Valid;
    RowsFit();
  }

  /** The only row of a table fits every cap of at least one. */
  lemma Alone(job: Job, now: Instant, s: Settings)
    requires job.origin == ORIGIN && job.Valid() && NOW <= now < NOW + 3_600_000_000 && s.policy == POLICY && s.lastPublishedAt.None?
    ensures Allowed([job], job, POLICY, None, Some(NOW), now)
  {
    hide Policy.Valid, Job.Valid, LocalDay;
    PolicyFits();
    var jobs := [job];
    forall g: Group ensures |UpTo(jobs, g, ORIGIN)| <= 1 && Before(jobs, g, ORIGIN) == {} {
      SubsetSize(UpTo(jobs, g, ORIGIN), {0});
    }
  }

  lemma NothingSpent(who: Option<Id>)
    ensures Charge(CLAIMED, DateOf(NOW), who) == 0
  {
    assert ChargeUpTo(CLAIMED.jobs, CLAIMED.attempts, 0, DateOf(NOW), who) == 0;
    assert ChargeUpTo(CLAIMED.jobs, CLAIMED.attempts, 1, DateOf(NOW), who) == 0;
  }

  lemma Eligible(db: Db, now: Instant)
    requires db == POSTED.(jobs := [RUNNING], attempts := db.attempts) && NOW <= now <= LATER
    ensures StandingOf(db, ORIGIN) == Granted(SETTINGS) && PolicyAllows(db, RUNNING, SETTINGS, now)
    ensures TimeAllowed(ORIGIN, POLICY, SourceCreated(db, ORIGIN), now)
  {
    hide Job.Valid, Allowed, Policy.Valid;
    PolicyFits();
    RowsFit();
    Alone(RUNNING, now, SETTINGS);
  }

  lemma Spends()
    ensures Spend(CLAIMED, 0, 1, SETTINGS, 5, READINGS) == Commit(ADMITTED, Admitted(Some(RESERVED), NoCode))
  {
    hide Job.Valid, Attempt.Valid, PolicyAllows, TimeAllowed, Charge;
    RowsFit();
    Eligible(CLAIMED, NOW);
    NothingSpent(None);
    NothingSpent(Some(AGENT));
    assert NewAttempt(CLAIMED, 0, 1, SETTINGS, 5, READINGS) == RESERVED;
    assert CLAIMED.attempts[0] + [RESERVED] == [RESERVED];
    assert CLAIMED.attempts[0 := [RESERVED]] == [[RESERVED]];
  }

  lemma Reserves()
    ensures Reserve(CLAIMED, 0, 1, Some(5), READINGS) == Commit(ADMITTED, Admitted(Some(RESERVED), NoCode))
  {
    hide Job.Valid, PolicyAllows, StandingOf, Spend;
    RowsFit();
    Eligible(CLAIMED, NOW);
    Spends();
  }

  lemma Settles()
    ensures Settle(ADMITTED, RESERVED, OUTCOME, None, NOW) == Commit(ANSWERED, true)
  {
    hide Attempt.Valid;
    RowsFit();
    assert Normalise(OUTCOME) == OUTCOME;
    assert Settled(RESERVED, OUTCOME, None, NOW) == SETTLED;
    assert [RESERVED][0 := SETTLED] == [SETTLED];
    assert ADMITTED.attempts[0 := [SETTLED]] == [[SETTLED]];
  }

  lemma Stays()
    ensures Complete(ANSWERED, 0, 1, 1, 0, NOW) == Commit(ANSWERED, Running)
  {
  }

  lemma MayPrint()
    ensures Authorised(ANSWERED, 0, 1, SETTINGS, PRINTING) && StillAuthorised(ANSWERED, 0, 1, SETTINGS, PRINTING)
    ensures Printed(RUNNING, PRINTING) == DONE
  {
    hide Job.Valid, Attempt.Valid, PolicyAllows, TimeAllowed;
    RowsFit();
    Eligible(ANSWERED, LATER);
    assert ValidTransition(RUNNING, DONE, 1, LATER, Some(SETTLED));
  }

  lemma Prints()
    ensures PublishJob(ANSWERED, 0, 1, PRINTING) == Commit(PUBLISHED, DONE)
  {
    hide StandingOf, Authorised, StillAuthorised, Print, Printed, TimeAllowed, PolicyAllows;
    Eligible(ANSWERED, LATER);
    MayPrint();
    PrintsAll();
  }

  lemma PrintsAll()
    ensures Print(ANSWERED, 0, SETTINGS, PRINTING) == Some(PUBLISHED)
  {
    hide Admit, CandidatesOf;
    assert Printed(RUNNING, PRINTING) == DONE;
    NoCandidates();
    NobodyElse([DONE], ChildSource(RUNNING, PRINTING), Child(DONE, DONE));
    var stored := InsertContent(ANSWERED, RUNNING, PRINTING).value;
    var written := stored.WithJob(0, DONE).(settings := ANSWERED.settings[AGENT := SETTINGS.(lastPublishedAt := Some(LATER), updatedAt := LATER)]);
    assert written == PUBLISHED;
    assert PUBLISHED.WithRows([DONE]) == PUBLISHED;
  }

  lemma NoCandidates()
    ensures CandidatesOf(ANSWERED, [], AGENT) == []
  {
  }

  lemma NobodyElse(jobs: seq<Job>, source: Source, line: Line)
    ensures Admit(jobs, source, line, [], LATER) == Some(jobs)
  {
  }

  // ---- The run ----

  const EMPTY: History := History([], [], [], [])
  const QUEUED: History := History([false], [[]], [], [])
  const GRANTED: History := History([false], [[None]], [Grant(AGENT, DateOf(NOW), 200000)], [])
  const SPENT: History := GRANTED.(consumed := [[Some(120)]])
  const TOLD: History := SPENT.(publications := [Publication(0, 1, ANSWER, REPLY)])

  lemma ActApplies()
    ensures Apply(World(START, EMPTY), DoAct(HumanPost, POST, HUMAN, None, QUESTION, NOW, [PICK], NOW)) == World(ENQUEUED, QUEUED)
  {
    hide Act;
    Enqueues();
    assert [] + seq(1, _ => false) == [false];
    assert [] + seq<seq<Option<int>>>(1, _ => []) == [[]];
  }

  lemma ClaimApplies()
    ensures Apply(World(ENQUEUED, QUEUED), DoClaim(0, NOW, NOW)) == World(CLAIMED, QUEUED)
  {
    hide Claim;
    Claims();
    assert QUEUED.acknowledged + seq(0, _ => false) == QUEUED.acknowledged;
    assert QUEUED.consumed + seq(0, _ => []) == QUEUED.consumed;
  }

  lemma ReserveApplies()
    ensures Apply(World(CLAIMED, QUEUED), DoReserve(0, 1, Some(5), READINGS)) == World(ADMITTED, GRANTED)
  {
    hide Reserve;
    Reserves();
    assert [false][0 := false] == [false];
    assert QUEUED.consumed[0] + [None] == [None] && QUEUED.consumed[0 := [None]] == [[None]];
    assert [] + [Grant(AGENT, DateOf(NOW), 200000)] == GRANTED.grants;
  }

  lemma CallApplies()
    ensures Apply(World(ADMITTED, GRANTED), DoCall(0, 1, 120)) == World(ADMITTED, SPENT)
  {
    assert [None][0 := Some(120)] == [Some(120)];
    assert GRANTED.consumed[0 := [Some(120)]] == [[Some(120)]];
  }

  lemma SettleApplies()
    ensures Apply(World(ADMITTED, SPENT), DoSettle(RESERVED, OUTCOME, None, NOW)) == World(ANSWERED, SPENT)
  {
    hide Settle;
    Settles();
    assert SPENT.acknowledged + seq(0, _ => false) == SPENT.acknowledged;
    assert SPENT.consumed + seq(0, _ => []) == SPENT.consumed;
  }

  lemma CompleteApplies()
    ensures Apply(World(ANSWERED, SPENT), DoComplete(0, 1, 1, 0, NOW)) == World(ANSWERED, SPENT)
  {
    hide Complete;
    Stays();
  }

  lemma PublishApplies()
    ensures Apply(World(ANSWERED, SPENT), DoPublish(0, 1, PRINTING)) == World(PUBLISHED, TOLD)
  {
    hide PublishJob;
    Prints();
    assert [] + [Publication(0, 1, ANSWER, REPLY)] == TOLD.publications;
    assert TOLD.acknowledged + seq(0, _ => false) == TOLD.acknowledged;
    assert TOLD.consumed + seq(0, _ => []) == TOLD.consumed;
  }

  const TRACE: seq<W.Step> := [
    W.Claimed(RUNNING), W.ReservedCall(RESERVED), W.Called(RESERVED, OUTCOME), W.SettledAs(RESERVED, OUTCOME, true),
    W.ReadLatest(Some(SETTLED)), W.Completed(1, Some(Running)), W.PublishTried(RESERVED, ANSWER)]

  const CREW: map<nat, Crew.Sessions> := map[1 := [(RUNNING, TRACE)]]

  lemma OneJobEmployed()
    ensures Crew.Employed(CREW[1]) && Crew.AllSteps(CREW[1]) == TRACE
  {
    assert forall i :: 0 <= i < |TRACE| ==> W.Licensed(TRACE, i, RUNNING) by {
      assert TRACE[1] == W.ReservedCall(RESERVED);
    }
    assert CREW[1][..0] == [] && [] + TRACE == TRACE;
  }

  /** Moves that fit so far, with what the first worker recorded and nobody else recording anything. */
  ghost predicate Underway(moves: seq<Crew.Move>, w: World, t: seq<W.Step>) {
    && (forall i :: 0 <= i < |moves| ==> Crew.MoveFits(Start(START), moves, i))
    && Crew.Played(Start(START), moves) == w
    && (forall who :: Crew.TraceOf(moves, who) == if who == 1 then t else [])
  }

  /** One more move. */
  lemma Moves(moves: seq<Crew.Move>, w: World, t: seq<W.Step>, m: Crew.Move, after: World, next: seq<W.Step>)
    requires Underway(moves, w, t) && w.db.Shaped() && Crew.Matches(w, m)
    requires if m.event.Some? then Truthful(w, m.event.value) && Apply(w, m.event.value) == after else after == w
    requires if m.who == 1 && m.step.Some? then next == t + [m.step.value] else next == t && m.step.None?
    ensures Underway(moves + [m], after, next)
  {
    hide Apply, Truthful, Crew.Matches;
    var longer := moves + [m];
    assert longer[..|moves|] == moves && longer[..|moves| + 1] == longer;
    Crew.PlayedNext(Start(START), longer, |moves|);
    forall i | 0 <= i < |longer| ensures Crew.MoveFits(Start(START), longer, i) {
      assert i < |moves| ==> longer[..i] == moves[..i] && Crew.MoveFits(Start(START), moves, i);
    }
    forall who ensures Crew.TraceOf(longer, who) == if who == 1 then next else [] {
      Crew.TraceGrows(longer, |moves|, who);
    }
  }

  /** The crew's run: a person posts, and one worker claims, reserves, calls, settles, reads, completes and publishes. */
  lemma ACrewAnswers() returns (moves: seq<Crew.Move>)
    ensures Crew.Crewed(Start(START), moves, CREW)
    ensures Crew.Played(Start(START), moves) == World(PUBLISHED, TOLD)
  {
    hide Apply, Reserve, Crew.MoveFits, Crew.Played, Crew.TraceOf;
    moves := [];
    StartsUnderway();
    var act := Crew.Move(0, Some(DoAct(HumanPost, POST, HUMAN, None, QUESTION, NOW, [PICK], NOW)), None);
    ActApplies();
    Moves(moves, World(START, EMPTY), [], act, World(ENQUEUED, QUEUED), []);
    moves := moves + [act];
    var claim := Crew.Move(1, Some(DoClaim(0, NOW, NOW)), Some(TRACE[0]));
    ClaimApplies();
    Moves(moves, World(ENQUEUED, QUEUED), [], claim, World(CLAIMED, QUEUED), TRACE[..1]);
    moves := moves + [claim];
    var reserve := Crew.Move(1, Some(DoReserve(0, 1, Some(5), READINGS)), Some(TRACE[1]));
    ReserveApplies();
    Reserves();
    Moves(moves, World(CLAIMED, QUEUED), TRACE[..1], reserve, World(ADMITTED, GRANTED), TRACE[..2]);
    moves := moves + [reserve];
    var call := Crew.Move(1, Some(DoCall(0, 1, 120)), Some(TRACE[2]));
    CallApplies();
    Moves(moves, World(ADMITTED, GRANTED), TRACE[..2], call, World(ADMITTED, SPENT), TRACE[..3]);
    moves := moves + [call];
    var settle := Crew.Move(1, Some(DoSettle(RESERVED, OUTCOME, None, NOW)), Some(TRACE[3]));
    SettleApplies();
    Moves(moves, World(ADMITTED, SPENT), TRACE[..3], settle, World(ANSWERED, SPENT), TRACE[..4]);
    moves := moves + [settle];
    var read := Crew.Move(1, None, Some(TRACE[4]));
    Moves(moves, World(ANSWERED, SPENT), TRACE[..4], read, World(ANSWERED, SPENT), TRACE[..5]);
    moves := moves + [read];
    var complete := Crew.Move(1, Some(DoComplete(0, 1, 1, 0, NOW)), Some(TRACE[5]));
    CompleteApplies();
    Moves(moves, World(ANSWERED, SPENT), TRACE[..5], complete, World(ANSWERED, SPENT), TRACE[..6]);
    moves := moves + [complete];
    var publish := Crew.Move(1, Some(DoPublish(0, 1, PRINTING)), Some(TRACE[6]));
    PublishApplies();
    Moves(moves, World(ANSWERED, SPENT), TRACE[..6], publish, World(PUBLISHED, TOLD), TRACE);
    moves := moves + [publish];
    OneJobEmployed();
  }

  lemma StartsUnderway()
    ensures Underway([], World(START, EMPTY), [])
  {
  }

  /** The agent answers: a run that enqueues, claims, reserves, calls, settles, completes and publishes. */
  lemma AHumanPostIsAnswered() returns (events: seq<Event>)
    ensures HonestRun(Start(START), events)
    ensures Run(Start(START), events) == World(PUBLISHED, TOLD)
  {
    hide Crew.Crewed, Crew.Played, HonestRun, Run;
    var moves := ACrewAnswers();
    Crew.CrewHonest(Start(START), moves, CREW);
    events := Crew.EventsOf(moves);
  }
}
