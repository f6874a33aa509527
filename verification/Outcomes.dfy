/** Outcomes are written once: repeats are recognised, late ones refused, and nothing recorded ever changes. */
module Outcomes {
  import opened Basics
  import opened Policies
  import opened Attempts
  import opened Jobs
  import opened Eligibility
  import opened Tables
  import opened Transactions
  import opened Protocol
  import opened Effects
  import opened Growth
  import opened Changes
  import opened Histories
  import opened Invariants
  import Retries

  /** A finished attempt is the same in every later state, whoever reports what and however often. */
  ghost predicate Fixed(before: Db, after: Db, row: nat, k: nat)
    requires before.Shaped() && row < |before.jobs| && k < |before.attempts[row]|
  {
    row < |after.attempts| && k < |after.attempts[row]| && after.attempts[row][k] == before.attempts[row][k]
  }

  lemma ChangeFixes(w: World, after: World, c: Change, row: nat, k: nat)
    requires Inv(w) && Explains(w, after, c) && row < |w.db.jobs| && k < |w.db.attempts[row]| && w.db.attempts[row][k].status != Reserved
    ensures Fixed(w.db, after.db, row, k)
  {
    hide RowSound, Chains.Chained, Around, JobStep, Job.Valid, Attempt.Valid, PublicationChecked, Inserted, Grew, Settings.Valid, SourceValid,
         InvalidOutputs, Charge;
    match c
    case Publishing(r, version, p) =>
      GrewRows(w.db.WithJob(r, Printed(w.db.jobs[r], p)), after.db, Some(w.db.jobs[r].origin.root));
    case Extending(root) => GrewRows(w.db, after.db, root);
    case _ =>
  }

  lemma {:induction false} FinishedForever(w: World, events: seq<Event>, row: nat, k: nat)
    requires Inv(w) && HonestRun(w, events) && row < |w.db.jobs| && k < |w.db.attempts[row]| && w.db.attempts[row][k].status != Reserved
    ensures Fixed(w.db, Run(w, events).db, row, k)
    decreases |events|
  {
    hide RowSound, Chains.Chained, Explains, Apply, Honest;
    if events != [] {
      var c := EventSound(w, events[0]);
      ChangeFixes(w, Apply(w, events[0]), c, row, k);
      FinishedForever(Apply(w, events[0]), events[1..], row, k);
    }
  }

  /** The same observation reported again is accepted again, at any clock reading, and changes nothing. */
  lemma SettleRepeats(db: Db, reservation: Attempt, outcome: Outcome, requestId: Option<nat>, now: Instant, later: Instant)
    requires db.Shaped() && Settle(db, reservation, outcome, requestId, now).Commit?
    requires Settle(db, reservation, outcome, requestId, now).result
    ensures var after := Settle(db, reservation, outcome, requestId, now).db;
            after.Shaped() && Settle(after, reservation, outcome, requestId, later) == Commit(after, true)
  {
    hide Attempt.Valid, ValidOutcome, Normalise, Settled;
    var n := Normalise(outcome);
    var first, second := Settled(reservation, n, requestId, now), Settled(reservation, n, requestId, later);
    SettledTimes(reservation, n, requestId, now, later);
    assert reservation.number >= 1 by { ValidNumber(reservation); }
    var before := db.attempts[reservation.job][reservation.number - 1];
    if before.status == Reserved {
      assert SameObservation(first, second);
    }
  }

  lemma ValidNumber(a: Attempt)
    requires a.Valid()
    ensures a.number >= 1
  {
  }

  /** Only the finish time of a settlement depends on the clock. */
  lemma SettledTimes(reservation: Attempt, n: Outcome, requestId: Option<nat>, now: Instant, later: Instant)
    ensures var first, second := Settled(reservation, n, requestId, now), Settled(reservation, n, requestId, later);
            first.Reservation() == reservation.Reservation() && first.finishedAt == Some(now)
            && forall at :: first.(finishedAt := at) == second.(finishedAt := at)
  {
    hide Attempt.Valid;
  }

  /** A recovered attempt is unknown forever: a late answer for it is never accepted, whatever it says. */
  lemma RecoveredRefuses(db: Db, row: nat, number: int, now: Instant, outcome: Outcome, requestId: Option<nat>, later: Instant,
                         reservation: Attempt)
    requires db.Shaped() && RecoverOne(db, row, number, now).Commit? && RecoverOne(db, row, number, now).result == 1
    requires reservation.job == row && reservation.number == number
    ensures var after := RecoverOne(db, row, number, now).db;
            && after.Shaped() && after.attempts[row][number - 1].Cost() == after.attempts[row][number - 1].reserved
            && var r := Settle(after, reservation, outcome, requestId, later);
            r == Abort || r == Commit(after, false)
  {
    hide Attempt.Valid;
  }

  /** An acknowledged completion answers the same again, and changes nothing. */
  lemma CompleteRepeats(db: Db, row: nat, version: int, number: int, jitter: int, now: Instant, later: Instant)
    requires db.Shaped() && Complete(db, row, version, number, jitter, now).Commit?
    requires Complete(db, row, version, number, jitter, now).result != Running
    ensures var r := Complete(db, row, version, number, jitter, now);
            r.db.Shaped() && Complete(r.db, row, version, number, jitter, later) == Commit(r.db, r.result)
  {
    hide ValidTransition, ValidSourceInvalidation, Judge, Job.Leased;
    var job, attempts := db.jobs[row], db.attempts[row];
    if job.status == Running && now < job.origin.expiresAt && !job.RepostGone() {
      match Judge(job, attempts, version, now, jitter)
      case Stay =>
      case End(status, reason, available) => FinishStatus(job, status, reason, now, available);
    }
  }

  lemma FinishStatus(job: Job, status: JobStatus, reason: Code, now: Instant, available: Instant)
    ensures var r := Finish(job, status, reason, now, available);
            r.Some? ==> r.value.status == status && status != Running && status != Pending && r.value.lease == job.lease && r.value.reason == reason
  {
  }

  /** Rows ended by expiry or invalidation carry the two reasons every later acknowledgement accepts. */
  lemma EndedStatus(job: Job, now: Instant)
    ensures var r := SkipExpired(job, now); r.Some? ==> r.value.status == Skipped && r.value.reason == StaleTrigger && r.value.lease == job.lease
    ensures var r := Invalidate(job, job.lease, now);
            r.Some? && now < job.origin.expiresAt ==>
              r.value.status == Cancelled && r.value.reason == SourceRemoved && r.value.lease == job.lease
  {
    hide ValidTransition, Job.Valid;
  }

  /** A denial answers the same again, and changes nothing. */
  lemma DenyRepeats(db: Db, row: nat, version: int, denial: Code, now: Instant, later: Instant)
    requires Deny(db, row, version, denial, now).Commit?
    ensures var r := Deny(db, row, version, denial, now);
            Deny(r.db, row, version, denial, later) == Commit(r.db, r.result)
  {
    hide ValidTransition, ValidSourceInvalidation, Job.Leased, Finish, SkipExpired, Invalidate, TerminalStatus;
    FinishStatus(db.jobs[row], TerminalStatus(denial).value, denial, now, now);
    EndedStatus(db.jobs[row], now);
  }

  // ---- What a reservation reads of the history and of the money ----

  /** Whether one more reservation fits both budgets of the day. */
  predicate MoneyFits(db: Db, agent: Id, budget: int, day: int)
    requires db.Shaped()
  {
    Charge(db, day, None) + 132096 <= 500000 && Charge(db, day, Some(agent)) + 132096 <= budget
  }

  /** The scans over leases and finish times agree with the last attempt and the acknowledgement. */
  lemma HistoryTells(w: World, row: nat, version: int)
    requires Inv(w) && row < |w.db.jobs| && w.db.jobs[row].lease == version
    ensures |w.db.attempts[row]| <= MAX_ATTEMPTS
    ensures var attempts := w.db.attempts[row];
            attempts != [] ==>
              var last := attempts[|attempts| - 1];
              && ((exists k :: 0 <= k < |attempts| && attempts[k].lease == version) <==> last.lease == version)
              && (last.finishedAt.Some? && w.db.jobs[row].availableAt > last.finishedAt.value <==> w.history.acknowledged[row])
  {
    hide Job.Valid, Sequenced, Concluded, Accounted, Chains.Chained;
    Retries.Sound(w, row);
    var attempts := w.db.attempts[row];
    if attempts != [] {
      assert Recorded(attempts[|attempts| - 1], row, |attempts| - 1);
    }
  }
}
