/** Attempts over whole runs: their order and bounds, and that no call repeats without a retry. */
module Retries {
  import opened Basics
  import opened Policies
  import opened Attempts
  import opened Jobs
  import opened Tables
  import opened Protocol
  import opened Effects
  import opened Growth
  import opened Changes
  import opened Histories
  import opened Invariants

  lemma Sound(w: World, row: nat)
    requires Inv(w) && row < |w.db.jobs|
    ensures RowSound(w, row)
  {
    hide RowSound, Chains.Chained;
  }

  /** When the last attempt of a row finished, if it has one and that did. */
  function LastFinished(db: Db, row: nat): Option<Instant>
    requires db.Shaped() && row < |db.jobs|
  {
    var attempts := db.attempts[row];
    if attempts == [] || attempts[|attempts| - 1].status == Reserved then None else attempts[|attempts| - 1].finishedAt
  }

  /** In every reachable state the durable timestamp comparison tells exactly whether a retry was
      committed since the last, finished attempt was made. */
  lemma AvailabilityIsAcknowledgement(w: World, events: seq<Event>, row: nat)
    requires Inv(w) && HonestRun(w, events) && row < |Run(w, events).db.jobs|
    ensures var after := Run(w, events);
            LastFinished(after.db, row).Some? ==>
              (after.db.jobs[row].availableAt > LastFinished(after.db, row).value <==> after.history.acknowledged[row])
  {
    hide Job.Valid, Fenced, Sequenced, Concluded, Accounted, Run, HonestRun, Chains.Chained;
    var after := Run(w, events);
    if LastFinished(after.db, row).None? {
      return;
    }
    Sound(after, row);
    assert Recorded(after.db.attempts[row][|after.db.attempts[row]| - 1], row, |after.db.attempts[row]| - 1);
  }

  lemma LastInvalid(attempts: seq<Attempt>)
    ensures attempts != [] ==> InvalidOutputs(attempts) <= InvalidOutputs(attempts[..|attempts| - 1]) + 1
  {
  }

  /** Every job's attempts in every reachable state. */
  lemma AttemptHistory(w: World, events: seq<Event>, row: nat)
    requires Inv(w) && HonestRun(w, events) && row < |Run(w, events).db.jobs|
    ensures var attempts := Run(w, events).db.attempts[row];
            && |attempts| <= MAX_ATTEMPTS
            && (forall k :: 0 <= k < |attempts| ==> attempts[k].number == k + 1 && attempts[k].job == row)
            && (forall j, k :: 0 <= j < k < |attempts| ==> attempts[j].lease < attempts[k].lease)
            && (forall k :: 0 <= k < |attempts| - 1 ==>
                  && attempts[k].Finished() && attempts[k + 1].startedAt > attempts[k].finishedAt.value
                  && (attempts[k].notBefore.Some? ==> attempts[k + 1].startedAt >= attempts[k].notBefore.value))
            && InvalidOutputs(attempts) <= MAX_REGENERATIONS + 1
            && (forall k :: 0 <= k < |attempts| ==> attempts[k].Cost() == attempts[k].Accounted())
  {
    hide Job.Valid, Concluded, AvailabilityTells, Accounted, Run, HonestRun, Chains.Chained;
    var after := Run(w, events);
    Sound(after, row);
    var attempts := after.db.attempts[row];
    forall k | 0 <= k < |attempts|
      ensures attempts[k].number == k + 1 && attempts[k].job == row && attempts[k].Cost() == attempts[k].Accounted()
    {
      assert Recorded(attempts[k], row, k);
    }
    LastInvalid(attempts);
  }

  /** No step of the run commits a retry of the row. */
  ghost predicate NeverRetried(w: World, events: seq<Event>, row: nat)
    requires Inv(w) && HonestRun(w, events) && row < |w.db.jobs|
    decreases |events|
  {
    events != [] ==>
      && !RetryCommitted(w, events[0], row)
      && (Step(w, events[0]); row < |Apply(w, events[0]).db.jobs| && NeverRetried(Apply(w, events[0]), events[1..], row))
  }

  /** One event without a retry leaves an unacknowledged row without a new attempt. */
  lemma UnacknowledgedStays(w: World, e: Event, row: nat)
    requires Inv(w) && Honest(w, e) && row < |w.db.jobs|
    requires w.db.attempts[row] != [] && !w.history.acknowledged[row] && !RetryCommitted(w, e, row)
    ensures Inv(Apply(w, e)) && row < |Apply(w, e).db.jobs|
    ensures |Apply(w, e).db.attempts[row]| == |w.db.attempts[row]| && !Apply(w, e).history.acknowledged[row]
  {
    hide RowSound, Chains.Chained, Apply, RetryCommitted, Honest, Explains;
    var c := EventSound(w, e);
    Sound(w, row);
    UnacknowledgedKept(w, Apply(w, e), c, row);
  }

  lemma UnacknowledgedKept(w: World, after: World, c: Change, row: nat)
    requires Inv(w) && Inv(after) && Explains(w, after, c) && row < |w.db.jobs| && RowSound(w, row)
    requires w.db.attempts[row] != [] && !w.history.acknowledged[row] && c != Requeuing(row)
    ensures row < |after.db.jobs| && |after.db.attempts[row]| == |w.db.attempts[row]| && !after.history.acknowledged[row]
  {
    hide JobStep, Around, Job.Valid, ValidAttemptTransition, Chains.Chained, ReservationFacts, PublicationChecked, Inserted, NewRow,
         Numbered, Fenced, Sequenced, Concluded, Accounted, RequeueFacts;
    if c.Admitting? {
      AdmittedAcknowledged(w, c.row, c.attempt);
    }
  }

  /** A committed reservation found its row without attempts, or acknowledged. */
  lemma AdmittedAcknowledged(w: World, row: nat, attempt: Attempt)
    requires Inv(w) && row < |w.db.jobs| && ReservationFacts(w.db, row, attempt)
    ensures w.db.attempts[row] == [] || w.history.acknowledged[row]
  {
    hide Job.Valid, Settings.Valid, SourceValid, Charge, InvalidOutputs, Fenced, Sequenced, Concluded, Accounted, Chains.Chained;
    Sound(w, row);
    var attempts := w.db.attempts[row];
    if attempts != [] {
      assert Recorded(attempts[|attempts| - 1], row, |attempts| - 1);
    }
  }

  /** However long the run and whoever acts, a reserved call is not repeated until a retry is committed. */
  lemma {:induction false} NoRepeatWithoutRetry(w: World, events: seq<Event>, row: nat)
    requires Inv(w) && HonestRun(w, events) && row < |w.db.jobs|
    requires w.db.attempts[row] != [] && !w.history.acknowledged[row] && NeverRetried(w, events, row)
    ensures row < |Run(w, events).db.jobs|
    ensures |Run(w, events).db.attempts[row]| == |w.db.attempts[row]|
    decreases |events|
  {
    hide RowSound, Chains.Chained, Apply, RetryCommitted, Honest;
    if events != [] {
      UnacknowledgedStays(w, events[0], row);
      NoRepeatWithoutRetry(Apply(w, events[0]), events[1..], row);
    }
  }

  // ---- Calls ----

  /** How many reservations of a row were called for. */
  function Made(consumed: seq<Option<int>>): (r: nat)
    ensures r <= |consumed|
  {
    if consumed == [] then 0
    else Made(consumed[..|consumed| - 1]) + (if consumed[|consumed| - 1].Some? then 1 else 0)
  }

  /** The calls of a run on one row. */
  function CallsOn(events: seq<Event>, row: nat): nat {
    if events == [] then 0
    else (if events[0].DoCall? && events[0].row == row then 1 else 0) + CallsOn(events[1..], row)
  }

  lemma {:induction false} FirstCallCounts(consumed: seq<Option<int>>, k: nat, tokens: int)
    requires k < |consumed| && consumed[k].None?
    ensures Made(consumed[k := Some(tokens)]) == Made(consumed) + 1
    decreases |consumed|
  {
    var n := |consumed| - 1;
    if k < n {
      assert consumed[k := Some(tokens)][..n] == consumed[..n][k := Some(tokens)];
      FirstCallCounts(consumed[..n], k, tokens);
    } else {
      assert consumed[k := Some(tokens)][..n] == consumed[..n];
    }
  }

  lemma ReservationUncalled(consumed: seq<Option<int>>)
    ensures Made(consumed + [None]) == Made(consumed)
  {
    assert (consumed + [None])[..|consumed|] == consumed;
  }

  /** Only a call on the row changes how many were made on it. */
  lemma EventCalls(w: World, e: Event, row: nat)
    requires Inv(w) && Honest(w, e) && row < |w.db.jobs|
    ensures Inv(Apply(w, e)) && row < |Apply(w, e).db.jobs|
    ensures Made(Apply(w, e).history.consumed[row]) == Made(w.history.consumed[row]) + CallsOn([e], row)
  {
    hide RowSound, Chains.Chained, Explains, Apply, Honest, RetryCommitted, Causes, Made, CallsOn;
    var c := EventSound(w, e);
    ChangeCalls(w, e, Apply(w, e), c, row);
  }

  lemma ChangeCalls(w: World, e: Event, after: World, c: Change, row: nat)
    requires Inv(w) && Inv(after) && Explains(w, after, c) && Causes(w, e, c) && row < |w.db.jobs|
    ensures row < |after.db.jobs| && Made(after.history.consumed[row]) == Made(w.history.consumed[row]) + CallsOn([e], row)
  {
    hide RowSound, Chains.Chained, JobStep, Around, ReservationFacts, PublicationChecked, Inserted, NewRow, RequeueFacts, RetryCommitted,
         ValidAttemptTransition, Made;
    assert [e][1..] == [];
    match c
    case Calling(r, number, tokens) =>
      if r == row {
        FirstCallCounts(w.history.consumed[row], number - 1, tokens);
      }
    case Admitting(r, attempt) => ReservationUncalled(w.history.consumed[row]);
    case _ =>
  }

  /** What the history holds of a row's calls is exactly the calls the run made. */
  lemma {:induction false} CallsCounted(w: World, events: seq<Event>, row: nat)
    requires Inv(w) && HonestRun(w, events) && row < |w.db.jobs|
    ensures row < |Run(w, events).db.jobs|
    ensures Made(Run(w, events).history.consumed[row]) == Made(w.history.consumed[row]) + CallsOn(events, row)
    decreases |events|
  {
    hide RowSound, Chains.Chained, Apply, Honest, Made;
    if events != [] {
      EventCalls(w, events[0], row);
      assert [events[0]][1..] == [];
      CallsCounted(Apply(w, events[0]), events[1..], row);
    }
  }

  /** Until a retry is committed, a run calls for a row's existing reservations only, once each; when all of them were called
      for already, it makes no further call. */
  lemma NoCallWithoutRetry(w: World, events: seq<Event>, row: nat)
    requires Inv(w) && HonestRun(w, events) && row < |w.db.jobs|
    requires w.db.attempts[row] != [] && !w.history.acknowledged[row] && NeverRetried(w, events, row)
    ensures CallsOn(events, row) <= |w.db.attempts[row]| - Made(w.history.consumed[row])
  {
    hide RowSound, Chains.Chained, Run, HonestRun, NeverRetried, Made, CallsOn;
    NoRepeatWithoutRetry(w, events, row);
    CallsCounted(w, events, row);
    RowLengths(Run(w, events), row);
  }
}
