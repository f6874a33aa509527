/** What every reachable state keeps of one job, its attempts and their unrecorded history. */
module Histories {
  import opened Basics
  import opened Policies
  import opened Attempts
  import opened Jobs
  import opened Tables
  import opened Transactions
  import opened Effects

  /** Usage counts, when present, are verified ones. */
  predicate Measured(a: Attempt) {
    a.input.Some? ==>
      && a.output.Some? && 1 <= a.input.value <= MAX_INPUT_TOKENS && 0 <= a.output.value <= MAX_OUTPUT_TOKENS
      && a.error != AccountingUnsupported
  }

  ghost predicate Recorded(a: Attempt, row: nat, k: nat) {
    && a.Valid() && a.job == row && a.number == k + 1 && a.reserved == RESERVED_TOKENS && a.pauseRevision.Some? && Measured(a)
  }

  /** Attempts are numbered from one, and there are at most three. */
  ghost predicate Numbered(row: nat, attempts: seq<Attempt>) {
    && |attempts| <= MAX_ATTEMPTS
    && forall k :: 0 <= k < |attempts| ==> Recorded(attempts[k], row, k)
  }

  /** Lease versions rise strictly from attempt to attempt, up to the job's own. */
  ghost predicate Fenced(job: Job, attempts: seq<Attempt>) {
    && (forall k :: 0 <= k < |attempts| ==> 1 <= attempts[k].lease <= job.lease)
    && (forall j, k :: 0 <= j < k < |attempts| ==> attempts[j].lease < attempts[k].lease)
  }

  /** A later instant than the attempt's end, and not before the provider's hint. */
  ghost predicate PastEnd(a: Attempt, at: Instant) {
    a.Finished() && at > a.finishedAt.value && (a.notBefore.Some? ==> at >= a.notBefore.value)
  }

  /** Only the last attempt may be open; each starts after the end and the hint of the one before. */
  ghost predicate Sequenced(attempts: seq<Attempt>) {
    && (forall k :: 0 <= k < |attempts| - 1 ==> PastEnd(attempts[k], attempts[k + 1].startedAt))
    && (attempts != [] ==> InvalidOutputs(attempts[..|attempts| - 1]) <= MAX_REGENERATIONS)
  }

  /** The availability records whether a retry was committed since the last attempt. */
  ghost predicate AvailabilityTells(job: Job, attempts: seq<Attempt>, acknowledged: bool) {
    attempts != [] ==>
      var last := attempts[|attempts| - 1];
      if acknowledged then PastEnd(last, job.availableAt) else job.availableAt <= last.startedAt
  }

  /** A succeeded job published its last attempt, made under its current lease. */
  ghost predicate Concluded(job: Job, attempts: seq<Attempt>, acknowledged: bool) {
    job.status == JobSucceeded ==>
      && attempts != [] && job.published == Some(|attempts|) && !acknowledged
      && var last := attempts[|attempts| - 1];
      && last.status == Succeeded && last.decision == Some(Publish) && last.lease == job.lease
      && last.finishedAt.Some? && job.finishedAt.Some? && last.finishedAt.value <= job.finishedAt.value
  }

  /** Really consumed tokens never exceed the charge, and known usage is exactly what was consumed. */
  ghost predicate ChargeCovers(a: Attempt, consumed: Option<int>) {
    && (consumed.Some? ==> 0 <= consumed.value <= a.Cost())
    && (a.input.Some? ==> a.output.Some? && consumed == Some(a.input.value + a.output.value))
  }

  ghost predicate Accounted(attempts: seq<Attempt>, consumed: seq<Option<int>>) {
    |consumed| == |attempts| && forall k :: 0 <= k < |attempts| ==> ChargeCovers(attempts[k], consumed[k])
  }

  ghost predicate RowOk(job: Job, row: nat, attempts: seq<Attempt>, acknowledged: bool, consumed: seq<Option<int>>) {
    && job.Valid() && job.origin.row == row
    && Numbered(row, attempts) && Fenced(job, attempts) && Sequenced(attempts)
    && AvailabilityTells(job, attempts, acknowledged) && Concluded(job, attempts, acknowledged)
    && Accounted(attempts, consumed)
  }

  // ---- Preservation, change by change ----

  lemma PlainKeepsRow(job: Job, after: Job, row: nat, attempts: seq<Attempt>, acknowledged: bool, consumed: seq<Option<int>>)
    requires RowOk(job, row, attempts, acknowledged, consumed) && JobStep(job, after)
    ensures RowOk(after, row, attempts, acknowledged, consumed)
  {
    hide Job.Valid, Attempt.Valid, Numbered, Sequenced, Accounted;
  }

  lemma FreshRow(job: Job, row: nat)
    requires job.Valid() && job.status == Pending && job.origin.row == row
    ensures RowOk(job, row, [], false, [])
  {
  }

  /** The reservation check opens the last attempt only after an acknowledged end. */
  lemma ReserveKeepsRow(db: Db, row: nat, attempt: Attempt, acknowledged: bool, consumed: seq<Option<int>>)
    requires db.Shaped() && row < |db.jobs| && ReservationFacts(db, row, attempt)
    requires RowOk(db.jobs[row], row, db.attempts[row], acknowledged, consumed)
    ensures attempt.input.None? && attempt.Cost() == RESERVED_TOKENS
    ensures RowOk(db.jobs[row], row, db.attempts[row] + [attempt], false, consumed + [None])
  {
    hide Job.Valid, Settings.Valid, SourceValid, Charge, InvalidOutputs, Attempt.Valid;
    var attempts := db.attempts[row];
    OpenFacts(attempt);
    assert (attempts + [attempt])[..|attempts|] == attempts;
    if attempts != [] {
      assert Recorded(attempts[|attempts| - 1], row, |attempts| - 1);
      EndedFacts(attempts[|attempts| - 1], row, |attempts| - 1);
    }
  }

  lemma OpenFacts(attempt: Attempt)
    requires attempt.Valid() && attempt.status == Reserved
    ensures attempt.input.None? && attempt.finishedAt.None? && attempt.Cost() == attempt.reserved && Measured(attempt)
  {
  }

  lemma EndedFacts(attempt: Attempt, row: nat, k: nat)
    requires Recorded(attempt, row, k) && attempt.finishedAt.Some?
    ensures attempt.Finished() && attempt.startedAt <= attempt.finishedAt.value
  {
  }

  lemma RequeueKeepsRow(db: Db, row: nat, after: Job, acknowledged: bool, consumed: seq<Option<int>>)
    requires db.Shaped() && row < |db.jobs| && RequeueFacts(db, row, after)
    requires RowOk(db.jobs[row], row, db.attempts[row], acknowledged, consumed)
    ensures RowOk(after, row, db.attempts[row], true, consumed)
  {
    hide Job.Valid, Attempt.Valid, InvalidOutputs, Accounted;
  }

  /** Only the last attempt of an unacknowledged, unfinished row can still be observed. */
  lemma ObserveKeepsRow(job: Job, row: nat, attempts: seq<Attempt>, acknowledged: bool, consumed: seq<Option<int>>, k: nat, after: Attempt)
    requires RowOk(job, row, attempts, acknowledged, consumed)
    requires k < |attempts| && ValidAttemptTransition(attempts[k], after)
    requires Measured(after) && (after.input.Some? ==> consumed[k] == Some(after.input.value + after.output.value))
    ensures k == |attempts| - 1 && !acknowledged && job.status != JobSucceeded
    ensures after.Cost() <= attempts[k].Cost()
    ensures RowOk(job, row, attempts[k := after], acknowledged, consumed)
  {
    hide Job.Valid, InvalidOutputs;
    forall j | 0 <= j < |attempts| - 1 ensures attempts[j].status != Reserved {
      assert PastEnd(attempts[j], attempts[j + 1].startedAt);
    }
    assert Recorded(attempts[k], row, k);
    assert attempts[k := after][..|attempts| - 1] == attempts[..|attempts| - 1];
  }

  lemma CallKeepsRow(job: Job, row: nat, attempts: seq<Attempt>, acknowledged: bool, consumed: seq<Option<int>>, k: nat, tokens: int)
    requires RowOk(job, row, attempts, acknowledged, consumed)
    requires k < |attempts| && consumed[k].None? && 0 <= tokens <= RESERVED_TOKENS
    ensures RowOk(job, row, attempts, acknowledged, consumed[k := Some(tokens)])
  {
    hide Job.Valid, InvalidOutputs, Fenced, Sequenced, AvailabilityTells, Concluded;
    assert Recorded(attempts[k], row, k);
    assert ChargeCovers(attempts[k], consumed[k]);
  }

  /** A publication can only be of the last attempt, made under the current lease and not since acknowledged. */
  lemma PublishKeepsRow(job: Job, row: nat, attempts: seq<Attempt>, acknowledged: bool, consumed: seq<Option<int>>, p: Printing)
    requires RowOk(job, row, attempts, acknowledged, consumed)
    requires 1 <= p.number <= |attempts| && attempts[p.number - 1].decision == Some(Publish)
    requires ValidTransition(job, Printed(job, p), job.lease, p.now, Some(attempts[p.number - 1]))
    ensures p.number == |attempts| && !acknowledged
    ensures RowOk(Printed(job, p), row, attempts, acknowledged, consumed)
  {
    hide Job.Valid, Numbered, InvalidOutputs, Accounted;
    var k := p.number - 1;
    assert attempts[k].lease == job.lease;
    assert forall j :: 0 <= j < |attempts| - 1 ==> attempts[j].lease < attempts[|attempts| - 1].lease <= job.lease;
  }
}
