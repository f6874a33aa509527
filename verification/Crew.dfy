/** Any number of workers at once: what each of them records is disciplined by itself, and from that alone the whole run
    calls for no reservation twice, however their moves interleave and wherever they crash. */
module Crew {
  import opened Basics
  import opened Policies
  import opened Attempts
  import opened Jobs
  import opened Tables
  import opened Transactions
  import opened Operations
  import opened Protocol
  import opened Effects
  import opened Growth
  import opened Changes
  import opened Invariants
  import Autonomy
  import Batches
  import Budgets
  import W = Worker

  // ---- What one worker records ----

  /** A call directly follows the worker's own reservation. */
  ghost predicate CallsFollow(t: seq<W.Step>) {
    forall i :: 0 <= i < |t| && t[i].Called? ==> i > 0 && t[i - 1] == W.ReservedCall(t[i].attempt)
  }

  lemma DisciplinedFollows(t: seq<W.Step>, job: Job)
    requires W.Disciplined(t, job)
    ensures CallsFollow(t)
  {
    forall i | 0 <= i < |t| && t[i].Called? ensures i > 0 && t[i - 1] == W.ReservedCall(t[i].attempt) {
      assert W.Licensed(t, i, job);
    }
  }

  /** One worker's jobs, one after the other, with what it recorded of each. */
  type Sessions = seq<(Job, seq<W.Step>)>

  ghost predicate Employed(ss: Sessions) {
    forall i :: 0 <= i < |ss| ==> W.Disciplined(ss[i].1, ss[i].0)
  }

  function AllSteps(ss: Sessions): seq<W.Step> {
    if ss == [] then [] else AllSteps(ss[..|ss| - 1]) + ss[|ss| - 1].1
  }

  lemma {:induction false} EmployedFollows(ss: Sessions)
    requires Employed(ss)
    ensures CallsFollow(AllSteps(ss))
    decreases |ss|
  {
    hide W.Disciplined;
    if ss != [] {
      var n := |ss| - 1;
      EmployedFollows(ss[..n]);
      DisciplinedFollows(ss[n].1, ss[n].0);
    }
  }

  /** The reservation a worker holds: made by its last recorded step. */
  function Holding(t: seq<W.Step>): Option<Attempt> {
    if t != [] && t[|t| - 1].ReservedCall? then Some(t[|t| - 1].attempt) else None
  }

  // ---- What all of them do ----

  /** One move of anybody: what it did to the store, if anything, and what its maker recorded, if anything. A crash, a lost
      answer and a background renewal record nothing; a read records without an event. */
  datatype Move = Move(who: nat, event: Option<Event>, step: Option<W.Step>)

  function EventsOf(moves: seq<Move>): seq<Event> {
    if moves == [] then []
    else EventsOf(moves[..|moves| - 1]) + (if moves[|moves| - 1].event.Some? then [moves[|moves| - 1].event.value] else [])
  }

  function TraceOf(moves: seq<Move>, who: nat): seq<W.Step> {
    if moves == [] then []
    else
      var last := moves[|moves| - 1];
      TraceOf(moves[..|moves| - 1], who) + (if last.who == who && last.step.Some? then [last.step.value] else [])
  }

  /** The steps a move may record: a reservation exactly as the store answered it, and a call for every call made. */
  ghost predicate Matches(w: World, m: Move)
    requires w.db.Shaped()
  {
    && (m.step.Some? && m.step.value.ReservedCall? ==>
          && m.event.Some? && m.event.value.DoReserve?
          && var e := m.event.value;
          && var r := Reserve(w.db, e.row, e.version, e.prompt, e.at);
          && r.Commit? && r.result.attempt == Some(m.step.value.attempt))
    && (m.event.Some? && m.event.value.DoCall? ==>
          && m.step.Some? && m.step.value.Called?
          && m.step.value.attempt.job == m.event.value.row && m.step.value.attempt.number == m.event.value.number)
  }

  lemma ShapedStays(w: World, e: Event)
    requires w.db.Shaped()
    ensures Apply(w, e).db.Shaped()
  {
    hide HistoryAfter, JobStep, Around, RequeueFacts, ReservationFacts, ValidAttemptTransition, NewRow, Claim, Renew, Deny, Expire,
         RemovePost, RemoveReply, RemoveRepost, Enable, SetPolicy, Reserve, Settle, RecoverOne, Complete, Retry, PublishJob, ScheduleAgent,
         Act, Continue;
    match e
    case DoReserve(row, version, prompt, at) => ReserveEffect(w.db, row, version, prompt, at);
    case DoCall(_, _, _) =>
    case DoSettle(reservation, outcome, requestId, now) => SettleEffect(w.db, reservation, outcome, requestId, now);
    case DoRecover(row, number, now) => RecoverEffect(w.db, row, number, now);
    case DoComplete(row, version, number, jitter, now) => CompleteEffect(w.db, row, version, number, jitter, now);
    case DoRetry(row, now) => RetryShaped(w.db, row, now);
    case DoPublish(row, version, p) => PublishShaped(w.db, row, version, p);
    case DoSchedule(agent, now, draw, uuid) => ScheduleGrows(w.db, agent, now, draw, uuid);
    case DoAct(kind, action, actor, target, content, written, picks, now) =>
      ActGrows(w.db, kind, action, actor, target, content, written, picks, now);
    case DoContinue(row, picks, now) => ContinueShaped(w.db, row, picks, now);
    case _ => QuietEvent(w.db, e);
  }

  lemma RetryShaped(db: Db, row: nat, now: Instant)
    requires db.Shaped()
    ensures Retry(db, row, now).Commit? ==> Retry(db, row, now).db.Shaped()
  {
    hide Reopenable, StandingOf, PolicyAllows, ValidTransition, Reopened;
  }

  lemma PublishShaped(db: Db, row: nat, version: int, p: Printing)
    requires db.Shaped()
    ensures PublishJob(db, row, version, p).Commit? ==> PublishJob(db, row, version, p).db.Shaped()
  {
    hide StandingOf, Authorised, StillAuthorised, Print;
  }

  lemma ContinueShaped(db: Db, row: nat, picks: seq<Pick>, now: Instant)
    requires db.Shaped()
    ensures Continue(db, row, picks, now).Commit? ==> Continue(db, row, picks, now).db.Shaped()
  {
    hide Proven, ResultSource, Admission.Admit, CandidatesOf;
  }

  /** The world after some moves, nothing assumed. */
  ghost function Played(w: World, moves: seq<Move>): (r: World)
    requires w.db.Shaped()
    ensures r.db.Shaped()
    decreases |moves|
  {
    if moves == [] then w
    else
      var before := Played(w, moves[..|moves| - 1]);
      var e := moves[|moves| - 1].event;
      if e.None? then before else (ShapedStays(before, e.value); Apply(before, e.value))
  }

  ghost predicate MoveFits(w: World, moves: seq<Move>, i: nat)
    requires w.db.Shaped() && i < |moves|
  {
    var before := Played(w, moves[..i]);
    Matches(before, moves[i]) && (moves[i].event.Some? ==> Truthful(before, moves[i].event.value))
  }

  /** A run of a crew: the provider is truthful, every move records what the store answered, and what each worker recorded is
      a beginning of what its own disciplined sessions record. Nothing is said of one worker in terms of another. */
  ghost predicate Crewed(w: World, moves: seq<Move>, crew: map<nat, Sessions>)
    requires w.db.Shaped()
  {
    && (forall i :: 0 <= i < |moves| ==> MoveFits(w, moves, i))
    && (forall who :: who in crew ==> Employed(crew[who]))
    && (forall who :: TraceOf(moves, who) <= if who in crew then AllSteps(crew[who]) else [])
  }

  // ---- No reservation is called for twice ----

  function Held(moves: seq<Move>, who: nat): Option<Attempt> {
    Holding(TraceOf(moves, who))
  }

  /** Every held reservation is uncalled, and no two workers hold the same one. */
  ghost predicate HeldApart(w: World, moves: seq<Move>) {
    && (forall who: nat :: Held(moves, who).Some? ==> Uncalled(w, Held(moves, who).value.job, Held(moves, who).value.number))
    && (forall one: nat, two: nat :: one != two && Held(moves, one).Some? && Held(moves, two).Some? ==>
          Held(moves, one).value.job != Held(moves, two).value.job || Held(moves, one).value.number != Held(moves, two).value.number)
  }

  /** Other events leave an uncalled reservation uncalled. */
  lemma UncalledStays(w: World, e: Event, row: nat, number: int)
    requires Inv(w) && Honest(w, e) && Uncalled(w, row, number) && !(e.DoCall? && e.row == row && e.number == number)
    ensures Uncalled(Apply(w, e), row, number)
  {
    hide RowSound, Chains.Chained, Explains, Apply, Honest, RetryCommitted;
    var c := EventSound(w, e);
    UncalledKept(w, e, Apply(w, e), c, row, number);
  }

  lemma UncalledKept(w: World, e: Event, after: World, c: Change, row: nat, number: int)
    requires Inv(w) && Inv(after) && Explains(w, after, c) && Causes(w, e, c)
    requires Uncalled(w, row, number) && !(e.DoCall? && e.row == row && e.number == number)
    ensures Uncalled(after, row, number)
  {
    hide RowSound, Chains.Chained, JobStep, Around, ReservationFacts, PublicationChecked, Inserted, NewRow, RequeueFacts, RetryCommitted,
         ValidAttemptTransition;
  }

  /** A committed reservation is a new one, and nobody has called for it. */
  lemma ReservationNew(w: World, e: Event, a: Attempt)
    requires Inv(w) && e.DoReserve? && Reserve(w.db, e.row, e.version, e.prompt, e.at).Commit?
    requires Reserve(w.db, e.row, e.version, e.prompt, e.at).result.attempt == Some(a)
    ensures Uncalled(Apply(w, e), a.job, a.number) && !(a.job < |w.history.consumed| && a.number <= |w.history.consumed[a.job]|)
  {
    hide RowSound, Chains.Chained, Reserve, Attempt.Valid, SourceValid, Settings.Valid, InvalidOutputs, Charge, Job.Leased;
    ReserveEffect(w.db, e.row, e.version, e.prompt, e.at);
    RowLengths(w, e.row);
  }

  lemma TraceGrows(moves: seq<Move>, n: nat, who: nat)
    requires n < |moves|
    ensures var m := moves[n];
            TraceOf(moves[..n + 1], who)
            == TraceOf(moves[..n], who) + (if m.who == who && m.step.Some? then [m.step.value] else [])
  {
    assert moves[..n + 1][..n] == moves[..n];
  }

  lemma {:induction false} TracePrefix(moves: seq<Move>, n: nat, who: nat)
    requires n <= |moves|
    ensures TraceOf(moves[..n], who) <= TraceOf(moves, who)
    decreases |moves| - n
  {
    if n == |moves| {
      assert moves[..n] == moves;
    } else {
      TraceGrows(moves, n, who);
      TracePrefix(moves, n + 1, who);
    }
  }

  /** Whoever calls holds the reservation it calls for. */
  lemma CallerHolds(w: World, moves: seq<Move>, crew: map<nat, Sessions>, n: nat)
    requires w.db.Shaped() && Crewed(w, moves, crew) && n < |moves|
    requires moves[n].step.Some? && moves[n].step.value.Called?
    ensures Held(moves[..n], moves[n].who) == Some(moves[n].step.value.attempt)
  {
    hide MoveFits, Employed, TraceOf, AllSteps, CallsFollow, Holding;
    var who := moves[n].who;
    TraceGrows(moves, n, who);
    TracePrefix(moves, n + 1, who);
    assert TraceOf(moves, who) <= if who in crew then AllSteps(crew[who]) else [];
    assert TraceOf(moves[..n + 1], who) == TraceOf(moves[..n], who) + [moves[n].step.value];
    var whole := if who in crew then AllSteps(crew[who]) else [];
    if who in crew {
      EmployedFollows(crew[who]);
    } else {
      NoStepsFollow();
    }
    CallAfterReservation(TraceOf(moves[..n], who), moves[n].step.value, TraceOf(moves, who), whole);
  }

  lemma NoStepsFollow()
    ensures CallsFollow([])
  {
  }

  /** A call recorded after some steps of a disciplined worker directly follows its reservation. */
  lemma CallAfterReservation(t: seq<W.Step>, call: W.Step, seen: seq<W.Step>, whole: seq<W.Step>)
    requires call.Called? && t + [call] <= seen <= whole && CallsFollow(whole)
    ensures Holding(t) == Some(call.attempt)
  {
    var k := |t|;
    assert (t + [call])[k] == call && seen[k] == call && whole[k] == call;
    assert whole[k - 1] == W.ReservedCall(call.attempt);
    assert t[k - 1] == (t + [call])[k - 1] == seen[k - 1] == whole[k - 1];
  }

  lemma MoveHonest(w: World, moves: seq<Move>, crew: map<nat, Sessions>, n: nat)
    requires w.db.Shaped() && Crewed(w, moves, crew) && n < |moves| && moves[n].event.Some?
    requires HeldApart(Played(w, moves[..n]), moves[..n])
    ensures Honest(Played(w, moves[..n]), moves[n].event.value)
  {
    hide HeldApart, Employed, Played, Reserve;
    assert MoveFits(w, moves, n);
    if moves[n].event.value.DoCall? {
      CallerHolds(w, moves, crew, n);
      HeldUncalled(Played(w, moves[..n]), moves[..n], moves[n].who);
    }
  }

  lemma HeldUncalled(w: World, moves: seq<Move>, who: nat)
    requires HeldApart(w, moves) && Held(moves, who).Some?
    ensures var a := Held(moves, who).value; Uncalled(w, a.job, a.number)
  {
    hide Uncalled, Held;
  }

  /** A move keeps held reservations apart: a new one is nobody else's, and a call gives its own up. */
  lemma MoveKeepsApart(w: World, moves: seq<Move>, crew: map<nat, Sessions>, n: nat)
    requires w.db.Shaped() && Crewed(w, moves, crew) && n < |moves|
    requires Inv(Played(w, moves[..n])) && HeldApart(Played(w, moves[..n]), moves[..n])
    requires moves[n].event.Some? ==> Honest(Played(w, moves[..n]), moves[n].event.value)
    ensures HeldApart(Played(w, moves[..n + 1]), moves[..n + 1])
  {
    hide Inv, Played, TraceOf, Honest, Uncalled, Employed, Apply, Matches;
    var before, after := Played(w, moves[..n]), Played(w, moves[..n + 1]);
    PlayedNext(w, moves, n);
    forall who: nat ensures HeldOrMade(before, after, moves, n, who) {
      HoldingMoves(w, moves, crew, n, who);
    }
    var next := moves[..n + 1];
    forall who: nat | Held(next, who).Some? ensures Uncalled(after, Held(next, who).value.job, Held(next, who).value.number) {
      assert HeldOrMade(before, after, moves, n, who);
    }
    forall one: nat, two: nat | one != two && Held(next, one).Some? && Held(next, two).Some?
      ensures Held(next, one).value.job != Held(next, two).value.job || Held(next, one).value.number != Held(next, two).value.number
    {
      assert HeldOrMade(before, after, moves, n, one) && HeldOrMade(before, after, moves, n, two);
    }
  }

  /** What a move leaves a worker holding: what it held, still uncalled, or a reservation it just made. */
  ghost predicate HeldOrMade(before: World, after: World, moves: seq<Move>, n: nat, who: nat)
    requires n < |moves|
  {
    var held, holds := Held(moves[..n], who), Held(moves[..n + 1], who);
    holds.Some? ==>
      && Uncalled(after, holds.value.job, holds.value.number)
      && ((holds == held && Uncalled(before, held.value.job, held.value.number))
          || (moves[n].who == who && !Uncalled(before, holds.value.job, holds.value.number)))
  }

  lemma HoldingMoves(w: World, moves: seq<Move>, crew: map<nat, Sessions>, n: nat, who: nat)
    requires w.db.Shaped() && Crewed(w, moves, crew) && n < |moves|
    requires Inv(Played(w, moves[..n])) && HeldApart(Played(w, moves[..n]), moves[..n])
    requires moves[n].event.Some? ==> Honest(Played(w, moves[..n]), moves[n].event.value)
    ensures HeldOrMade(Played(w, moves[..n]), Played(w, moves[..n + 1]), moves, n, who)
  {
    hide Inv, Played, TraceOf, Honest, Crewed, Apply, Matches, Uncalled, Truthful, HeldApart;
    var before, m := Played(w, moves[..n]), moves[n];
    PlayedNext(w, moves, n);
    TraceGrows(moves, n, who);
    if m.who == who && m.step.Some? {
      if m.step.value.ReservedCall? {
        MadeNew(w, moves, crew, n);
      }
    } else if Held(moves[..n], who).Some? {
      HeldUncalled(before, moves[..n], who);
      if m.event.Some? {
        OthersKeep(w, moves, crew, n, who);
      }
    }
  }

  /** A recorded reservation is new to the store. */
  lemma MadeNew(w: World, moves: seq<Move>, crew: map<nat, Sessions>, n: nat)
    requires w.db.Shaped() && Crewed(w, moves, crew) && n < |moves| && Inv(Played(w, moves[..n]))
    requires moves[n].step.Some? && moves[n].step.value.ReservedCall?
    ensures moves[n].event.Some? && Played(w, moves[..n]).db.Shaped()
    ensures var before, a := Played(w, moves[..n]), moves[n].step.value.attempt;
            Uncalled(Apply(before, moves[n].event.value), a.job, a.number) && !Uncalled(before, a.job, a.number)
  {
    hide Inv, Played, TraceOf, Apply, Reserve, Employed, Truthful;
    assert MoveFits(w, moves, n);
    ReservationNew(Played(w, moves[..n]), moves[n].event.value, moves[n].step.value.attempt);
  }

  /** What one worker holds stays uncalled through everybody else's move. */
  lemma OthersKeep(w: World, moves: seq<Move>, crew: map<nat, Sessions>, n: nat, who: nat)
    requires w.db.Shaped() && Crewed(w, moves, crew) && n < |moves| && moves[n].event.Some?
    requires Inv(Played(w, moves[..n])) && HeldApart(Played(w, moves[..n]), moves[..n])
    requires Honest(Played(w, moves[..n]), moves[n].event.value)
    requires Held(moves[..n], who).Some? && (moves[n].who != who || moves[n].step.None?)
    ensures var a := Held(moves[..n], who).value;
            Uncalled(Apply(Played(w, moves[..n]), moves[n].event.value), a.job, a.number)
  {
    hide Inv, Played, TraceOf, Honest, Employed, Apply, Reserve, Uncalled, Truthful, Held;
    var before, m := Played(w, moves[..n]), moves[n];
    var a := Held(moves[..n], who).value;
    assert MoveFits(w, moves, n);
    HeldUncalled(before, moves[..n], who);
    if m.event.value.DoCall? {
      CallerHolds(w, moves, crew, n);
    }
    UncalledStays(before, m.event.value, a.job, a.number);
  }

  lemma PlayedNext(w: World, moves: seq<Move>, n: nat)
    requires w.db.Shaped() && n < |moves|
    ensures var before := Played(w, moves[..n]);
            Played(w, moves[..n + 1]) == if moves[n].event.None? then before else Apply(before, moves[n].event.value)
    ensures EventsOf(moves[..n + 1]) == EventsOf(moves[..n]) + (if moves[n].event.None? then [] else [moves[n].event.value])
  {
    hide Apply;
    assert moves[..n + 1][..n] == moves[..n];
  }

  lemma {:induction false} PrefixHonest(w: World, moves: seq<Move>, crew: map<nat, Sessions>, n: nat)
    requires Inv(w) && Crewed(w, moves, crew) && n <= |moves|
    ensures HonestRun(w, EventsOf(moves[..n])) && Run(w, EventsOf(moves[..n])) == Played(w, moves[..n])
    ensures HeldApart(Played(w, moves[..n]), moves[..n])
    decreases n
  {
    hide RowSound, Chains.Chained, Apply, Honest, Crewed, Uncalled;
    if n == 0 {
      assert moves[..0] == [];
    } else {
      PrefixHonest(w, moves, crew, n - 1);
      PlayedNext(w, moves, n - 1);
      if moves[n - 1].event.Some? {
        MoveHonest(w, moves, crew, n - 1);
        Batches.RunAppend(w, EventsOf(moves[..n - 1]), moves[n - 1].event.value);
      } else {
        assert EventsOf(moves[..n - 1]) + [] == EventsOf(moves[..n - 1]);
      }
      MoveKeepsApart(w, moves, crew, n - 1);
    }
  }

  /** Whatever a crew does is an honest run: that every reservation is called for at most once follows from each worker's own
      discipline and from the store never admitting the same attempt twice. */
  lemma CrewHonest(w: World, moves: seq<Move>, crew: map<nat, Sessions>)
    requires Inv(w) && Crewed(w, moves, crew)
    ensures HonestRun(w, EventsOf(moves)) && Run(w, EventsOf(moves)) == Played(w, moves)
  {
    hide RowSound, Chains.Chained, Crewed, HonestRun, Run, Played, HeldApart;
    PrefixHonest(w, moves, crew, |moves|);
    assert moves[..|moves|] == moves;
  }

  /** The money limits of any crew, from a truthful provider alone. */
  lemma MoneyLimits(db: Db, moves: seq<Move>, crew: map<nat, Sessions>, day: int, agent: Id)
    requires db.jobs == [] && db.attempts == [] && Crewed(Start(db), moves, crew)
    ensures var w := Played(Start(db), moves);
            && Inv(w)
            && 0 <= Budgets.Consumed(w, day, None) <= Charge(w.db, day, None) <= 500000
            && Budgets.Consumed(w, day, Some(agent)) <= Charge(w.db, day, Some(agent))
               <= Budgets.LargestBudget(w.history.grants, agent, day)
  {
    hide RowSound, Chains.Chained, Crewed, HonestRun, Run, Played, Budgets.Consumed, Charge, Budgets.LargestBudget;
    CrewHonest(Start(db), moves, crew);
    Budgets.MoneyLimits(db, EventsOf(moves), day, agent);
  }

  /** A crew calls the provider at most three times for each job a chain allows. */
  lemma ChainCallLimit(db: Db, moves: seq<Move>, crew: map<nat, Sessions>, root: nat)
    requires db.jobs == [] && db.attempts == [] && Crewed(Start(db), moves, crew)
    ensures var w := Played(Start(db), moves);
            && Inv(w)
            && (root < |w.db.jobs| && w.db.jobs[root].origin.root == root ==>
                  Autonomy.CallsMade(w, root, |w.db.jobs|) <= 3 * w.db.jobs[root].origin.maxJobs)
  {
    hide RowSound, Chains.Chained, Crewed, HonestRun, Run, Played, Autonomy.CallsMade;
    CrewHonest(Start(db), moves, crew);
    if root < |Played(Start(db), moves).db.jobs| && Played(Start(db), moves).db.jobs[root].origin.root == root {
      Autonomy.ChainStops(db, EventsOf(moves), root);
    }
  }
}
