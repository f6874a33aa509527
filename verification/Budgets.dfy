/** Money: what calls really consume never exceeds what is charged, and charges never exceed the budgets. */
module Budgets {
  import opened Basics
  import opened Policies
  import opened Attempts
  import opened Jobs
  import opened Eligibility
  import opened Tables
  import opened Transactions
  import opened Protocol
  import opened Effects
  import opened Growth
  import opened Changes
  import opened Histories
  import opened Invariants
  import Retries

  // ---- Consumption ----

  /** Tokens really consumed by a row's calls on reservations of a day. */
  function RowConsumed(attempts: seq<Attempt>, consumed: seq<Option<int>>, day: int): int
    requires |consumed| == |attempts|
    decreases |attempts|
  {
    if attempts == [] then 0
    else
      var k := |attempts| - 1;
      RowConsumed(attempts[..k], consumed[..k], day)
      + (if attempts[k].budgetDay == day && consumed[k].Some? then consumed[k].value else 0)
  }

  function ConsumedUpTo(db: Db, consumed: seq<seq<Option<int>>>, n: nat, day: int, who: Option<Id>): int
    requires db.Shaped() && n <= |db.jobs| && n <= |consumed|
    requires forall i :: 0 <= i < n ==> |consumed[i]| == |db.attempts[i]|
  {
    if n == 0 then 0
    else ConsumedUpTo(db, consumed, n - 1, day, who)
         + (if Counts(db.jobs[n - 1], who) then RowConsumed(db.attempts[n - 1], consumed[n - 1], day) else 0)
  }

  lemma {:induction false} RowWithinCharge(attempts: seq<Attempt>, consumed: seq<Option<int>>, day: int)
    requires Accounted(attempts, consumed) && forall k :: 0 <= k < |attempts| ==> attempts[k].Cost() >= 0
    ensures 0 <= RowConsumed(attempts, consumed, day) <= JobCharge(attempts, day)
    decreases |attempts|
  {
    if attempts != [] {
      var k := |attempts| - 1;
      assert ChargeCovers(attempts[k], consumed[k]);
      assert forall j :: 0 <= j < k ==> ChargeCovers(attempts[j], consumed[j]);
      RowWithinCharge(attempts[..k], consumed[..k], day);
    }
  }

  lemma CostsPositive(attempts: seq<Attempt>, row: nat)
    requires Numbered(row, attempts)
    ensures forall k :: 0 <= k < |attempts| ==> 0 <= attempts[k].Cost() <= RESERVED_TOKENS
  {
    forall k | 0 <= k < |attempts| ensures 0 <= attempts[k].Cost() <= RESERVED_TOKENS {
      assert Recorded(attempts[k], row, k);
    }
  }

  lemma {:induction false} WithinCharge(w: World, n: nat, day: int, who: Option<Id>)
    requires Inv(w) && n <= |w.db.jobs|
    requires forall i :: 0 <= i < n ==> |w.history.consumed[i]| == |w.db.attempts[i]|
    ensures 0 <= ConsumedUpTo(w.db, w.history.consumed, n, day, who) <= ChargeUpTo(w.db.jobs, w.db.attempts, n, day, who)
  {
    hide Job.Valid, Attempt.Valid, Chains.Chained, Numbered, Fenced, Sequenced, AvailabilityTells, Concluded;
    if n > 0 {
      WithinCharge(w, n - 1, day, who);
      assert RowSound(w, n - 1);
      CostsPositive(w.db.attempts[n - 1], n - 1);
      RowWithinCharge(w.db.attempts[n - 1], w.history.consumed[n - 1], day);
    }
  }

  lemma Lengths(w: World)
    requires Inv(w)
    ensures forall i :: 0 <= i < |w.db.jobs| ==> |w.history.consumed[i]| == |w.db.attempts[i]|
  {
    hide RowSound, Chains.Chained;
    forall i | 0 <= i < |w.db.jobs| ensures |w.history.consumed[i]| == |w.db.attempts[i]| {
      RowLengths(w, i);
    }
  }

  /** Tokens really consumed, by one agent or by all, on reservations of a UTC day. */
  ghost function Consumed(w: World, day: int, who: Option<Id>): int
    requires Inv(w)
  {
    Lengths(w);
    ConsumedUpTo(w.db, w.history.consumed, |w.db.jobs|, day, who)
  }

  // ---- How one change moves a charge ----

  /** A table whose only changed attempts are one row's. */
  ghost predicate OneRow(before: Db, after: Db, n: nat, row: nat) {
    && before.Shaped() && after.Shaped() && n <= |before.jobs| && n <= |after.jobs|
    && (forall i :: 0 <= i < n ==> after.jobs[i].origin.agent == before.jobs[i].origin.agent)
    && (forall i :: 0 <= i < n && i != row ==> after.attempts[i] == before.attempts[i])
  }

  lemma {:induction false} ChargeMoves(before: Db, after: Db, n: nat, row: nat, day: int, who: Option<Id>)
    requires OneRow(before, after, n, row)
    ensures ChargeUpTo(after.jobs, after.attempts, n, day, who)
            == ChargeUpTo(before.jobs, before.attempts, n, day, who)
               + (if row < n && Counts(before.jobs[row], who)
                  then JobCharge(after.attempts[row], day) - JobCharge(before.attempts[row], day) else 0)
  {
    if n > 0 {
      ChargeMoves(before, after, n - 1, row, day, who);
    }
  }

  lemma {:induction false} EmptyRowsCostNothing(after: Db, low: nat, n: nat, day: int, who: Option<Id>)
    requires after.Shaped() && low <= n <= |after.jobs|
    requires forall i :: low <= i < n ==> after.attempts[i] == []
    ensures ChargeUpTo(after.jobs, after.attempts, n, day, who) == ChargeUpTo(after.jobs, after.attempts, low, day, who)
    decreases n
  {
    if low < n {
      EmptyRowsCostNothing(after, low, n - 1, day, who);
    }
  }

  lemma {:induction false} SettlingMoves(attempts: seq<Attempt>, k: nat, after: Attempt, day: int)
    requires k < |attempts| && after.budgetDay == attempts[k].budgetDay
    ensures JobCharge(attempts[k := after], day)
            == JobCharge(attempts, day) + (if after.budgetDay == day then after.Cost() - attempts[k].Cost() else 0)
    decreases |attempts|
  {
    hide Attempt.Cost;
    var n := |attempts| - 1;
    if k < n {
      assert attempts[k := after][..n] == attempts[..n][k := after];
      SettlingMoves(attempts[..n], k, after, day);
    } else {
      assert attempts[k := after][..n] == attempts[..n];
    }
  }

  /** The day and the rows a change adds a full reservation to. */
  ghost function Added(w: World, c: Change, day: int, who: Option<Id>): int
    requires w.db.Shaped()
  {
    if c.Admitting? && c.row < |w.db.jobs| && c.attempt.budgetDay == day && Counts(w.db.jobs[c.row], who) then RESERVED_TOKENS else 0
  }

  /** How a change moves the charge of a day: a reservation adds its 132096 tokens to its own agent and day, an outcome replaces the
      reservation's charge by its own there, and nothing else moves any. */
  ghost function Moved(w: World, after: World, c: Change, day: int, who: Option<Id>): int
    requires w.db.Shaped() && after.db.Shaped()
  {
    match c
    case Admitting(row, attempt) =>
      if attempt.budgetDay == day && row < |w.db.jobs| && (who.None? || w.db.jobs[row].origin.agent == who.value) then 132096 else 0
    case Observing(row, number) =>
      if row < |w.db.jobs| && row < |after.db.jobs| && 1 <= number <= |w.db.attempts[row]| && number <= |after.db.attempts[row]|
         && w.db.attempts[row][number - 1].budgetDay == day && (who.None? || w.db.jobs[row].origin.agent == who.value)
      then after.db.attempts[row][number - 1].Cost() - w.db.attempts[row][number - 1].Cost() else 0
    case _ => 0
  }

  lemma AdmittingCharge(w: World, after: World, row: nat, attempt: Attempt, day: int, who: Option<Id>)
    requires Inv(w) && Explains(w, after, Admitting(row, attempt)) && after.db.Shaped()
    ensures Charge(after.db, day, who) == Charge(w.db, day, who) + Moved(w, after, Admitting(row, attempt), day, who)
  {
    hide Chains.Chained, RowOk, ReservationFacts, Granting;
    Retries.Sound(w, row);
    ReserveKeepsRow(w.db, row, attempt, w.history.acknowledged[row], w.history.consumed[row]);
    assert (w.db.attempts[row] + [attempt])[..|w.db.attempts[row]|] == w.db.attempts[row];
    ChargeMoves(w.db, after.db, |w.db.jobs|, row, day, who);
  }

  lemma ObservingCharge(w: World, after: World, row: nat, number: int, day: int, who: Option<Id>)
    requires Inv(w) && Explains(w, after, Observing(row, number)) && after.db.Shaped()
    ensures Charge(after.db, day, who) == Charge(w.db, day, who) + Moved(w, after, Observing(row, number), day, who)
    ensures Charge(after.db, day, who) <= Charge(w.db, day, who)
  {
    hide Chains.Chained, RowOk, Attempt.Cost, Attempt.Valid, Measured;
    Retries.Sound(w, row);
    ObservedMeasured(w, after, row, number);
    var attempt := after.db.attempts[row][number - 1];
    ObserveKeepsRow(w.db.jobs[row], row, w.db.attempts[row], w.history.acknowledged[row], w.history.consumed[row], number - 1, attempt);
    SettlingMoves(w.db.attempts[row], number - 1, attempt, day);
    ChargeMoves(w.db, after.db, |w.db.jobs|, row, day, who);
  }

  lemma GrowthCharge(before: Db, after: Db, root: Option<nat>, day: int, who: Option<Id>)
    requires before.Shaped() && after.Shaped() && Grew(before, after, root)
    ensures Charge(after, day, who) == Charge(before, day, who)
  {
    hide NewRow, Members;
    var n := |before.jobs|;
    assert forall i :: 0 <= i < n ==> after.jobs[..n][i] == after.jobs[i];
    EmptyRowsCostNothing(after, n, |after.jobs|, day, who);
    ChargeMoves(before, after, n, n, day, who);
  }

  lemma PlainCharge(before: Db, after: Db, day: int, who: Option<Id>)
    requires before.Shaped() && after.Shaped() && Quiet(before, after)
    ensures Charge(after, day, who) == Charge(before, day, who)
  {
    hide Around, Job.Valid;
    forall i | 0 <= i < |before.jobs| ensures after.jobs[i].origin.agent == before.jobs[i].origin.agent {
      assert JobStep(before.jobs[i], after.jobs[i]);
    }
    ChargeMoves(before, after, |before.jobs|, |before.jobs|, day, who);
  }

  lemma RowCharge(before: Db, row: nat, job: Job, day: int, who: Option<Id>)
    requires before.Shaped() && row < |before.jobs| && job.origin == before.jobs[row].origin
    ensures Charge(before.WithJob(row, job), day, who) == Charge(before, day, who)
  {
    ChargeMoves(before, before.WithJob(row, job), |before.jobs|, |before.jobs|, day, who);
  }

  /** A charge moves by exactly what was reserved or observed: only a reservation raises it, by one full reservation. */
  lemma ChangeCharge(w: World, after: World, c: Change, day: int, who: Option<Id>)
    requires Inv(w) && Explains(w, after, c) && Inv(after)
    ensures Charge(after.db, day, who) == Charge(w.db, day, who) + Moved(w, after, c, day, who)
    ensures Charge(after.db, day, who) <= Charge(w.db, day, who) + Added(w, c, day, who)
  {
    hide RowSound, Chains.Chained, ChargeUpTo, Quiet, Grew, ReservationFacts, ObservedTruly, PublicationChecked, Inserted, RequeueFacts, Around;
    match c
    case Plain => PlainCharge(w.db, after.db, day, who);
    case Admitting(row, attempt) => AdmittingCharge(w, after, row, attempt, day, who);
    case Calling(row, number, tokens) =>
    case Requeuing(row) => RequeuedOrigin(w.db, row, after.db.jobs[row]); RowCharge(w.db, row, after.db.jobs[row], day, who);
    case Observing(row, number) => ObservingCharge(w, after, row, number, day, who);
    case Publishing(row, version, p) =>
      var mid := w.db.WithJob(row, Printed(w.db.jobs[row], p));
      RowCharge(w.db, row, Printed(w.db.jobs[row], p), day, who);
      GrowthCharge(mid, after.db, Some(w.db.jobs[row].origin.root), day, who);
    case Extending(root) => GrowthCharge(w.db, after.db, root, day, who);
  }

  lemma RequeuedOrigin(db: Db, row: nat, after: Job)
    requires db.Shaped() && row < |db.jobs| && RequeueFacts(db, row, after)
    ensures after.origin == db.jobs[row].origin
  {
    hide Job.Valid;
  }

  /** Settlement, recovery, publication and every other step never raise any day's charge: only reserve does. */
  lemma OnlyReserveRaises(w: World, e: Event, day: int, who: Option<Id>)
    requires Inv(w) && Honest(w, e) && !e.DoReserve?
    ensures Inv(Apply(w, e)) && Charge(Apply(w, e).db, day, who) <= Charge(w.db, day, who)
  {
    hide RowSound, Chains.Chained, Explains, Honest, Apply, Charge;
    var c := EventSound(w, e);
    ChangeCharge(w, Apply(w, e), c, day, who);
  }

  // ---- The budgets ----

  /** The largest daily token budget in force at an agent's admissions of a day. */
  function LargestBudget(grants: seq<Grant>, agent: Id, day: int): (r: int)
    ensures r >= 0
    ensures forall g :: g in grants && g.agent == agent && g.day == day ==> g.budget <= r
    ensures r == 0 || exists g :: g in grants && g.agent == agent && g.day == day && g.budget == r
  {
    if grants == [] then 0
    else
      var g := grants[|grants| - 1];
      var rest := LargestBudget(grants[..|grants| - 1], agent, day);
      if g.agent == agent && g.day == day then Max(rest, g.budget) else rest
  }

  ghost predicate WithinBudgets(w: World)
    requires w.db.Shaped()
  {
    && (forall day :: Charge(w.db, day, None) <= DAILY_TOKENS)
    && (forall day, agent :: Charge(w.db, day, Some(agent)) <= LargestBudget(w.history.grants, agent, day))
  }

  lemma GrantsGrow(grants: seq<Grant>, grant: Grant, agent: Id, day: int)
    ensures LargestBudget(grants, agent, day) <= LargestBudget(grants + [grant], agent, day)
    ensures grant.agent == agent && grant.day == day ==> grant.budget <= LargestBudget(grants + [grant], agent, day)
  {
    assert (grants + [grant])[..|grants|] == grants;
  }

  lemma ChangeWithinBudgets(w: World, after: World, c: Change)
    requires Inv(w) && Explains(w, after, c) && Inv(after) && WithinBudgets(w)
    ensures WithinBudgets(after)
  {
    hide RowSound, Chains.Chained, Charge, Quiet, Grew, ObservedTruly, Published, RequeueFacts, Around, Attempt.Valid, SourceValid,
         Settings.Valid, InvalidOutputs, LargestBudget, Job.Leased;
    forall day ensures Charge(after.db, day, None) <= DAILY_TOKENS {
      ChangeCharge(w, after, c, day, None);
    }
    forall day, agent ensures Charge(after.db, day, Some(agent)) <= LargestBudget(after.history.grants, agent, day) {
      ChangeCharge(w, after, c, day, Some(agent));
      if c.Admitting? {
        var a := w.db.jobs[c.row].origin.agent;
        GrantsGrow(w.history.grants, Grant(a, c.attempt.budgetDay, w.db.settings[a].policy.dailyTokens), agent, day);
      }
    }
  }

  lemma {:induction false} RunWithinBudgets(w: World, events: seq<Event>)
    requires Inv(w) && HonestRun(w, events) && WithinBudgets(w)
    ensures WithinBudgets(Run(w, events))
    decreases |events|
  {
    hide RowSound, Chains.Chained, WithinBudgets, Explains, Apply, Honest;
    if events != [] {
      var c := EventSound(w, events[0]);
      ChangeWithinBudgets(w, Apply(w, events[0]), c);
      RunWithinBudgets(Apply(w, events[0]), events[1..]);
    }
  }

  /** From an empty job table, after any run of any number of workers: really consumed tokens of a UTC day are at most
      the charged ones, those are at most the global budget, and no agent is charged more than the largest budget
      one of its admissions of that day was made under. */
  lemma MoneyLimits(db: Db, events: seq<Event>, day: int, agent: Id)
    requires db.jobs == [] && db.attempts == [] && HonestRun(Start(db), events)
    ensures var w := Run(Start(db), events);
            && 0 <= Consumed(w, day, None) <= Charge(w.db, day, None) <= 500000
            && Consumed(w, day, Some(agent)) <= Charge(w.db, day, Some(agent)) <= LargestBudget(w.history.grants, agent, day)
  {
    hide RowSound, Chains.Chained, Run, HonestRun;
    var start := Start(db);
    RunWithinBudgets(start, events);
    var w := Run(start, events);
    Lengths(w);
    WithinCharge(w, |w.db.jobs|, day, None);
    WithinCharge(w, |w.db.jobs|, day, Some(agent));
  }
}
