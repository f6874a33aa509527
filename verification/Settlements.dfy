/** What a call's outcome leaves in its attempt, what a lost one leaves, and what that means for the rest of every run. */
module Settlements {
  import opened Basics
  import opened Policies
  import opened Attempts
  import opened Jobs
  import opened Tables
  import opened Transactions
  import opened Protocol
  import opened Effects
  import opened Growth
  import opened Changes
  import opened Histories
  import opened Invariants
  import Outcomes
  import Retries

  // ---- What a call may report ----

  const FAILURES: set<Code> := {
    Transient, RateLimited, Timeout, InvalidOutput, UnsafeOutput, RepeatedOutput, Credentials, Configuration,
    AccountingUnsupported, ExecutionCancelled, Permanent}

  const SKIP_REASONS: set<Code> := {NotRelevant, InsufficientContext, UnsafeRequest, Repetition}

  /** A result or one of eleven failures, never both; reasons go with skips, and retry hints with failures. */
  predicate Reportable(o: Outcome) {
    && (if o.result.None? then o.failure in FAILURES
        else
          && o.failure == NoCode && o.notBefore.None?
          && match o.result.value.decision
             case Publish => o.result.value.reason == NoCode
             case Skip => o.result.value.reason in SKIP_REASONS)
    && o.notBefore != Some(0)
  }

  lemma ReportableExactly(o: Outcome)
    ensures ValidOutcome(o) <==> Reportable(o)
  {
  }

  /** After a timeout, a cancellation or an accounting failure nobody knows what the call used. */
  predicate Certain(o: Outcome) {
    o.failure != Timeout && o.failure != ExecutionCancelled && o.failure != AccountingUnsupported
  }

  /** Either count alone is enough. */
  predicate OverTarget(o: Outcome) {
    Certain(o) && ((o.input.Some? && o.input.value > 8192) || (o.output.Some? && o.output.value > 1024))
  }

  predicate Counted(o: Outcome) {
    Certain(o) && o.input.Some? && o.output.Some? && 1 <= o.input.value <= 8192 && 0 <= o.output.value <= 1024
  }

  /** The row such an outcome must leave, and what the day is charged for it. */
  function Recorded(a: Attempt, o: Outcome, requestId: Option<nat>, now: Instant): Attempt {
    var ended := a.(finishedAt := Some(now), requestId := requestId, notBefore := o.notBefore,
                    input := if Counted(o) then o.input else None, output := if Counted(o) then o.output else None);
    if OverTarget(o) then ended.(status := Failed, error := AccountingUnsupported)
    else match o.result
      case Some(r) => ended.(status := Succeeded, digest := o.result, decision := Some(r.decision), skipReason := r.reason)
      case None => ended.(status := if o.failure == Timeout || o.failure == ExecutionCancelled then Unknown else Failed, error := o.failure)
  }

  function Charged(o: Outcome): int {
    if Counted(o) then o.input.value + o.output.value else 132096
  }

  /** An open attempt as every reservation leaves it. */
  ghost predicate OpenCall(db: Db, row: nat, number: nat) {
    && db.Shaped() && row < |db.jobs| && 1 <= number <= |db.attempts[row]|
    && var a := db.attempts[row][number - 1];
    a.Valid() && a.status == Reserved && a.reserved == 132096 && a.job == row && a.number == number
  }

  lemma SettledIsRecorded(a: Attempt, o: Outcome, requestId: Option<nat>, now: Instant)
    requires a.Valid() && a.status == Reserved && a.reserved == 132096 && ValidOutcome(o)
    ensures Settled(a, Normalise(o), requestId, now) == Recorded(a, o, requestId, now)
    ensures Recorded(a, o, requestId, now).Cost() == Charged(o)
    ensures Normalise(o).result == if OverTarget(o) then None else o.result
    ensures ValidAttemptTransition(a, Recorded(a, o, requestId, now)) <==> now >= a.startedAt
  {
    RecordedValid(a, o, requestId, now);
    OpenColumns(a);
    hide *;
    RowRecorded(a, o, requestId, now);
  }

  lemma OpenColumns(a: Attempt)
    requires a.Valid() && a.status == Reserved
    ensures a.digest.None? && a.decision.None? && a.skipReason == NoCode && a.error == NoCode
  {
  }

  lemma RowRecorded(a: Attempt, o: Outcome, requestId: Option<nat>, now: Instant)
    requires a.digest.None? && a.decision.None? && a.skipReason == NoCode && a.error == NoCode && ValidOutcome(o)
    ensures Settled(a, Normalise(o), requestId, now) == Recorded(a, o, requestId, now)
    ensures Normalise(o).result == if OverTarget(o) then None else o.result
  {
    hide Attempt.Valid;
  }

  lemma RecordedValid(a: Attempt, o: Outcome, requestId: Option<nat>, now: Instant)
    requires a.Valid() && a.status == Reserved && a.reserved == 132096 && ValidOutcome(o)
    ensures ValidAttemptTransition(a, Recorded(a, o, requestId, now)) <==> now >= a.startedAt
    ensures Recorded(a, o, requestId, now).Cost() == Charged(o)
  {
    hide Normalise, Settled;
  }

  /** An open call's outcome is recorded exactly when it is a possible one, not earlier than the call, and of the job's own kind. The
      row then says what the outcome said, and the day is charged the reported tokens when both counts are known and within
      the targets, and otherwise all 132096; usage over a target stops the job and drops the result. */
  lemma SettlementDecides(db: Db, row: nat, number: nat, o: Outcome, requestId: Option<nat>, now: Instant)
    requires OpenCall(db, row, number)
    ensures var a := db.attempts[row][number - 1];
            var r := Settle(db, a, o, requestId, now);
            && (r.Commit? <==>
                  && Reportable(o) && now >= a.startedAt
                  && (o.result.Some? && !OverTarget(o) ==> o.result.value.kind == db.jobs[row].origin.output))
            && (r.Commit? ==> r.result && r.db == db.WithAttempt(row, number - 1, Recorded(a, o, requestId, now)))
            && (r.Commit? ==> Recorded(a, o, requestId, now).Cost() == Charged(o))
  {
    hide Attempt.Valid, Normalise, Settled, ValidOutcome, Reportable, ValidAttemptTransition, Recorded, Attempt.Cost, Charged, OverTarget;
    ReportableExactly(o);
    if ValidOutcome(o) {
      SettledIsRecorded(db.attempts[row][number - 1], o, requestId, now);
    }
  }

  /** A report on a closed attempt never changes it, and is accepted exactly when it says what is recorded. */
  lemma LateReportCompares(db: Db, row: nat, number: nat, reservation: Attempt, o: Outcome, requestId: Option<nat>, now: Instant)
    requires db.Shaped() && row < |db.jobs| && 1 <= number <= |db.attempts[row]| && db.attempts[row][number - 1].status != Reserved
    requires reservation.Valid() && reservation.status == Reserved && reservation.reserved == 132096
    requires reservation.job == row && reservation.number == number
    ensures var a := db.attempts[row][number - 1];
            var r := Settle(db, reservation, o, requestId, now);
            && (r.Commit? ==> r.db == db)
            && (r.Commit? && r.result ==> a == Recorded(reservation, o, requestId, now).(finishedAt := a.finishedAt))
            && (a == Recorded(reservation, o, requestId, now).(finishedAt := a.finishedAt) && Reportable(o)
                && (o.result.Some? && !OverTarget(o) ==> o.result.value.kind == db.jobs[row].origin.output) ==>
                  r == Commit(db, true))
  {
    hide Attempt.Valid, Normalise, Settled, ValidOutcome, Reportable, ValidAttemptTransition, OverTarget, Counted;
    ReportableExactly(o);
    if ValidOutcome(o) {
      SettledIsRecorded(reservation, o, requestId, now);
    }
  }

  // ---- Lost calls ----

  /** The worker that holds the attempt's lease may still answer. */
  predicate CallLives(job: Job, a: Attempt, now: Instant) {
    && job.status == Running && job.lease == a.lease
    && job.leaseExpiresAt.Some? && now < job.leaseExpiresAt.value && now < job.origin.expiresAt
  }

  /** Recovery closes an attempt exactly when it is open and its own lease, or its job's time, has run out; a live call is left
      alone. What it closes stays charged in full, and a clock that went back behind the reservation aborts the batch. */
  lemma RecoveryDecides(db: Db, row: nat, number: nat, now: Instant)
    requires db.Shaped() && row < |db.jobs| && 1 <= number <= |db.attempts[row]| && db.attempts[row][number - 1].Valid()
    ensures var a := db.attempts[row][number - 1];
            var r := RecoverOne(db, row, number, now);
            && (a.status == Reserved && !CallLives(db.jobs[row], a, now) ==>
                  if now < a.startedAt then r.Abort?
                  else r == Commit(db.WithAttempt(row, number - 1, a.(status := Unknown, error := LeaseLost, finishedAt := Some(now))), 1))
            && (a.status != Reserved || CallLives(db.jobs[row], a, now) ==> r == Commit(db, 0))
  {
  }

  /** Attempts are closed as lost by a recovery at which their own lease is not live, and by nothing else. */
  lemma LostOnlyWhenDead(w: World, e: Event, row: nat, number: nat)
    requires Inv(w) && Honest(w, e) && OpenCall(w.db, row, number)
    ensures Inv(Apply(w, e)) && row < |Apply(w, e).db.jobs| && number <= |Apply(w, e).db.attempts[row]|
    ensures var a, after := w.db.attempts[row][number - 1], Apply(w, e).db.attempts[row][number - 1];
            after != a ==>
              || (e.DoSettle? && e.reservation.job == row && e.reservation.number == number && after.error != LeaseLost)
              || (e.DoRecover? && e.row == row && e.number == number && after.error == LeaseLost && !CallLives(w.db.jobs[row], a, e.now))
  {
    hide RowSound, Chains.Chained, DbAfter, HistoryAfter, Honest, Explains, Causes, Attempt.Valid, CallLives;
    var c := EventSound(w, e);
    OnlyObserved(w, e, c, row, number);
    if Apply(w, e).db.attempts[row][number - 1] != w.db.attempts[row][number - 1] {
      ObservedAs(w, e, row, number);
    }
  }

  lemma OnlyObserved(w: World, e: Event, c: Change, row: nat, number: nat)
    requires Inv(w) && Explains(w, Apply(w, e), c) && Causes(w, e, c) && Inv(Apply(w, e)) && OpenCall(w.db, row, number)
    ensures row < |Apply(w, e).db.jobs| && number <= |Apply(w, e).db.attempts[row]|
    ensures Apply(w, e).db.attempts[row][number - 1] != w.db.attempts[row][number - 1] ==>
              || (e.DoSettle? && e.reservation.job == row && e.reservation.number == number)
              || (e.DoRecover? && e.row == row && e.number == number)
  {
    hide RowSound, Chains.Chained, Apply, Attempt.Valid, JobStep, Around, ReservationFacts, PublicationChecked, Inserted, Grew, RequeueFacts,
         RetryCommitted, ValidAttemptTransition, HistoryAfter, Grown;
    match c
    case Publishing(r, version, p) =>
      GrewRows(w.db.WithJob(r, Printed(w.db.jobs[r], p)), Apply(w, e).db, Some(w.db.jobs[r].origin.root));
    case Extending(root) => GrewRows(w.db, Apply(w, e).db, root);
    case _ =>
  }

  lemma ObservedAs(w: World, e: Event, row: nat, number: nat)
    requires Inv(w) && OpenCall(w.db, row, number)
    requires || (e.DoSettle? && e.reservation.job == row && e.reservation.number == number)
             || (e.DoRecover? && e.row == row && e.number == number)
    requires row < |DbAfter(w.db, e).attempts| && number <= |DbAfter(w.db, e).attempts[row]|
    requires DbAfter(w.db, e).attempts[row][number - 1] != w.db.attempts[row][number - 1]
    ensures var a, after := w.db.attempts[row][number - 1], DbAfter(w.db, e).attempts[row][number - 1];
            if e.DoSettle? then after.error != LeaseLost
            else after.error == LeaseLost && !CallLives(w.db.jobs[row], a, e.now)
  {
    hide RowSound, Chains.Chained, Attempt.Valid, ValidAttemptTransition, Recorded, Normalise, Settled, ValidOutcome, Reportable, CallLives;
    if e.DoRecover? {
      RecoveryDecides(w.db, row, number, e.now);
    } else {
      var a := w.db.attempts[row][number - 1];
      SameReservation(a, e.reservation);
      SettlementDecides(w.db, row, number, e.outcome, e.requestId, e.now);
      NeverLost(a, e.outcome, e.requestId, e.now);
    }
  }

  /** Open rows are determined by what was reserved. */
  lemma SameReservation(a: Attempt, b: Attempt)
    requires a.Valid() && a.status == Reserved
    ensures b.Valid() && b.status == Reserved && a.Reservation() == b.Reservation() ==> a == b
  {
  }

  lemma NeverLost(a: Attempt, o: Outcome, requestId: Option<nat>, now: Instant)
    requires Reportable(o) && a.Valid() && a.status == Reserved
    ensures Recorded(a, o, requestId, now).error != LeaseLost
  {
  }

  /** Somebody reports an outcome for the call, or recovers it when its lease is not live. */
  predicate Disturbs(db: Db, e: Event, row: nat, number: nat)
    requires db.Shaped() && row < |db.jobs| && 1 <= number <= |db.attempts[row]|
  {
    || (e.DoSettle? && e.reservation.job == row && e.reservation.number == number)
    || (e.DoRecover? && e.row == row && e.number == number && !CallLives(db.jobs[row], db.attempts[row][number - 1], e.now))
  }

  ghost predicate Undisturbed(w: World, events: seq<Event>, row: nat, number: nat)
    requires Inv(w) && HonestRun(w, events)
    decreases |events|
  {
    events != [] && row < |w.db.jobs| && 1 <= number <= |w.db.attempts[row]| ==>
      !Disturbs(w.db, events[0], row, number) && (Step(w, events[0]); Undisturbed(Apply(w, events[0]), events[1..], row, number))
  }

  lemma OpenStays(w: World, e: Event, row: nat, number: nat)
    requires Inv(w) && Honest(w, e) && OpenCall(w.db, row, number) && !Disturbs(w.db, e, row, number)
    ensures Inv(Apply(w, e)) && OpenCall(Apply(w, e).db, row, number)
    ensures Apply(w, e).db.attempts[row][number - 1] == w.db.attempts[row][number - 1]
  {
    hide RowSound, Chains.Chained, Apply, Honest, Attempt.Valid, CallLives;
    LostOnlyWhenDead(w, e, row, number);
  }

  /** A call that nobody else answers and that every recovery finds live stays open, whatever else happens, so its worker's own
      answer is then accepted and recorded as it is. */
  lemma {:induction false} LiveCallStaysOpen(w: World, events: seq<Event>, row: nat, number: nat)
    requires Inv(w) && HonestRun(w, events) && OpenCall(w.db, row, number) && Undisturbed(w, events, row, number)
    ensures OpenCall(Run(w, events).db, row, number)
    ensures Run(w, events).db.attempts[row][number - 1] == w.db.attempts[row][number - 1]
    decreases |events|
  {
    hide RowSound, Chains.Chained, Apply, Honest, OpenCall, Disturbs;
    if events != [] {
      assert row < |w.db.jobs| && 1 <= number <= |w.db.attempts[row]| by { OpenRow(w.db, row, number); }
      OpenStays(w, events[0], row, number);
      LiveCallStaysOpen(Apply(w, events[0]), events[1..], row, number);
    }
  }

  lemma OpenRow(db: Db, row: nat, number: nat)
    requires OpenCall(db, row, number)
    ensures db.Shaped() && row < |db.jobs| && 1 <= number <= |db.attempts[row]|
  {
    hide Attempt.Valid;
  }

  lemma LiveAnswerAccepted(w: World, events: seq<Event>, row: nat, number: nat, o: Outcome, requestId: Option<nat>, now: Instant)
    requires Inv(w) && HonestRun(w, events) && OpenCall(w.db, row, number) && Undisturbed(w, events, row, number)
    requires Reportable(o) && now >= w.db.attempts[row][number - 1].startedAt
    requires row < |Run(w, events).db.jobs|
    requires o.result.Some? ==> o.result.value.kind == Run(w, events).db.jobs[row].origin.output
    ensures var a, after := w.db.attempts[row][number - 1], Run(w, events).db;
            && number <= |after.attempts[row]|
            && Settle(after, a, o, requestId, now) == Commit(after.WithAttempt(row, number - 1, Recorded(a, o, requestId, now)), true)
  {
    hide RowSound, Chains.Chained, Run, HonestRun, Undisturbed, Attempt.Valid, Settle, Reportable, Recorded, Attempt.Cost, Charged;
    LiveCallStaysOpen(w, events, row, number);
    SettlementDecides(Run(w, events).db, row, number, o, requestId, now);
  }

  // ---- Unsupported accounting stops a job ----

  /** The last attempt could not be accounted for, and nothing was retried since. */
  ghost predicate Halted(w: World, row: nat)
    requires Inv(w)
  {
    && row < |w.db.jobs| && w.db.attempts[row] != [] && !w.history.acknowledged[row]
    && w.db.attempts[row][|w.db.attempts[row]| - 1].error == AccountingUnsupported
  }

  lemma HaltedUnretried(w: World, e: Event, row: nat)
    requires Inv(w) && Halted(w, row)
    ensures !RetryCommitted(w, e, row) && w.db.jobs[row].status != JobSucceeded
    ensures w.db.attempts[row][|w.db.attempts[row]| - 1].status != Reserved
  {
    hide RowSound, Chains.Chained, Complete, Retry;
    Retries.Sound(w, row);
    HaltedEnd(w, row);
    if e.DoRetry? && e.row == row {
      NotReopened(w.db, row, e.now);
    }
    if e.DoComplete? && e.row == row {
      NotRequeued(w.db, row, e.version, e.number, e.jitter, e.now);
    }
  }

  lemma HaltedEnd(w: World, row: nat)
    requires Inv(w) && Halted(w, row) && RowSound(w, row)
    ensures w.db.jobs[row].status != JobSucceeded
    ensures w.db.attempts[row][|w.db.attempts[row]| - 1].status != Reserved
  {
    hide Job.Valid, Fenced, Sequenced, AvailabilityTells, Accounted, Chains.Chained, Measured;
    assert Histories.Recorded(w.db.attempts[row][|w.db.attempts[row]| - 1], row, |w.db.attempts[row]| - 1);
  }

  lemma NotReopened(db: Db, row: nat, now: Instant)
    requires db.Shaped() && row < |db.jobs| && db.attempts[row] != []
    requires db.attempts[row][|db.attempts[row]| - 1].error == AccountingUnsupported
    ensures Retry(db, row, now).Abort?
  {
    hide StandingOf, PolicyAllows, InvalidOutputs, ValidTransition, Reopened;
  }

  lemma NotRequeued(db: Db, row: nat, version: int, number: int, jitter: int, now: Instant)
    requires db.Shaped() && row < |db.jobs| && db.attempts[row] != []
    requires db.attempts[row][|db.attempts[row]| - 1].error == AccountingUnsupported
    ensures var r := Complete(db, row, version, number, jitter, now);
            db.jobs[row].status == Running && r.Commit? ==> r.result != RetryWait
  {
    hide InvalidOutputs, ValidTransition, ValidSourceInvalidation, Job.Leased, Job.Valid;
  }

  lemma HaltedStays(w: World, e: Event, row: nat)
    requires Inv(w) && Honest(w, e) && Halted(w, row)
    ensures Inv(Apply(w, e)) && Halted(Apply(w, e), row) && Apply(w, e).db.attempts[row] == w.db.attempts[row]
  {
    hide RowSound, Chains.Chained, Apply, Honest, RetryCommitted, Explains;
    HaltedUnretried(w, e, row);
    Retries.UnacknowledgedStays(w, e, row);
    var c := EventSound(w, e);
    forall k | 0 <= k < |w.db.attempts[row]| ensures Apply(w, e).db.attempts[row][k] == w.db.attempts[row][k] {
      ClosedRow(w, row, k);
      Outcomes.ChangeFixes(w, Apply(w, e), c, row, k);
    }
  }

  /** Every attempt of a halted row is closed. */
  lemma ClosedRow(w: World, row: nat, k: nat)
    requires Inv(w) && Halted(w, row) && k < |w.db.attempts[row]|
    ensures w.db.attempts[row][k].status != Reserved
  {
    hide Job.Valid, Fenced, AvailabilityTells, Accounted, Chains.Chained, Measured, Concluded, InvalidOutputs, RowSound;
    Retries.Sound(w, row);
    ClosedBelow(w, row, k);
  }

  lemma ClosedBelow(w: World, row: nat, k: nat)
    requires Inv(w) && Halted(w, row) && RowSound(w, row) && k < |w.db.attempts[row]|
    ensures w.db.attempts[row][k].status != Reserved
  {
    hide Job.Valid, Fenced, AvailabilityTells, Accounted, Chains.Chained, Measured, Concluded, InvalidOutputs;
    var attempts := w.db.attempts[row];
    if k < |attempts| - 1 {
      assert PastEnd(attempts[k], attempts[k + 1].startedAt);
    } else {
      HaltedEnd(w, row);
    }
  }

  /** Once a call of a job could not be accounted for, the job never gets another attempt and never succeeds, in any run. */
  lemma {:induction false} AccountingStops(w: World, events: seq<Event>, row: nat)
    requires Inv(w) && HonestRun(w, events) && Halted(w, row)
    ensures var after := Run(w, events);
            && row < |after.db.jobs| && after.db.attempts[row] == w.db.attempts[row] && after.db.jobs[row].status != JobSucceeded
    decreases |events|
  {
    hide RowSound, Chains.Chained, Apply, Honest;
    if events == [] {
      HaltedUnretried(w, DoCall(0, 0, 0), row);
    } else {
      HaltedStays(w, events[0], row);
      AccountingStops(Apply(w, events[0]), events[1..], row);
    }
  }

  /** A reported usage over a target ends the job's calls: in no run does the job get a further attempt or succeed, and no
      output of it is published. */
  lemma OverTargetStops(w: World, row: nat, number: nat, o: Outcome, requestId: Option<nat>, now: Instant, events: seq<Event>)
    requires Inv(w) && OpenCall(w.db, row, number) && OverTarget(o)
    requires Honest(w, DoSettle(w.db.attempts[row][number - 1], o, requestId, now))
    requires Settle(w.db, w.db.attempts[row][number - 1], o, requestId, now).Commit?
    requires var next := Apply(w, DoSettle(w.db.attempts[row][number - 1], o, requestId, now)); Inv(next) && HonestRun(next, events)
    ensures var after := Run(Apply(w, DoSettle(w.db.attempts[row][number - 1], o, requestId, now)), events).db;
            && row < |after.jobs| && |after.attempts[row]| == |w.db.attempts[row]| == number && after.jobs[row].status != JobSucceeded
            && after.attempts[row][number - 1].status == Failed && after.attempts[row][number - 1].digest.None?
            && after.attempts[row][number - 1].Cost() == 132096
  {
    hide RowSound, Chains.Chained, Honest, Run, HonestRun, Settle, Attempt.Valid;
    var e := DoSettle(w.db.attempts[row][number - 1], o, requestId, now);
    SettlementDecides(w.db, row, number, o, requestId, now);
    LastIsOpen(w, row, number);
    SettlesHalted(w, e, row);
    var a := w.db.attempts[row][number - 1];
    AccountingStops(Apply(w, e), events, row);
    StoppedRow(a, o, requestId, now);
  }

  lemma StoppedRow(a: Attempt, o: Outcome, requestId: Option<nat>, now: Instant)
    requires a.Valid() && a.status == Reserved && OverTarget(o)
    ensures var r := Recorded(a, o, requestId, now); r.status == Failed && r.digest.None? && r.error == AccountingUnsupported
  {
  }

  /** Only the last attempt of a row can be open, and nothing was acknowledged since. */
  lemma LastIsOpen(w: World, row: nat, number: nat)
    requires Inv(w) && OpenCall(w.db, row, number)
    ensures number == |w.db.attempts[row]| && !w.history.acknowledged[row]
  {
    hide Job.Valid, Attempt.Valid, Fenced, Accounted, Chains.Chained, Measured, Concluded, InvalidOutputs, RowSound;
    Retries.Sound(w, row);
    OpenEnds(w, row, number);
  }

  lemma OpenEnds(w: World, row: nat, number: nat)
    requires Inv(w) && OpenCall(w.db, row, number) && RowSound(w, row)
    ensures number == |w.db.attempts[row]| && !w.history.acknowledged[row]
  {
    hide Job.Valid, Attempt.Valid, Fenced, Accounted, Chains.Chained, Measured, Concluded, InvalidOutputs;
    assert number < |w.db.attempts[row]| ==> PastEnd(w.db.attempts[row][number - 1], w.db.attempts[row][number].startedAt);
  }

  lemma SettlesHalted(w: World, e: Event, row: nat)
    requires Inv(w) && e.DoSettle? && Inv(Apply(w, e)) && row < |w.db.jobs| && !w.history.acknowledged[row]
    requires row < |DbAfter(w.db, e).jobs| && DbAfter(w.db, e).attempts[row] != []
    requires |DbAfter(w.db, e).jobs| == |w.db.jobs|
    requires var attempts := DbAfter(w.db, e).attempts[row]; attempts[|attempts| - 1].error == AccountingUnsupported
    ensures Halted(Apply(w, e), row)
  {
    hide RowSound, Chains.Chained, DbAfter;
  }
}
