/** The invariant of every reachable state, and runs of any length from it. */
module Invariants {
  import opened Basics
  import opened Attempts
  import opened Jobs
  import opened Eligibility
  import opened Tables
  import opened Transactions
  import opened Protocol
  import opened Effects
  import opened Growth
  import opened Changes
  import opened Histories
  import opened Chains

  ghost predicate RowSound(w: World, row: nat)
    requires Aligned(w) && row < |w.db.jobs|
  {
    RowOk(w.db.jobs[row], row, w.db.attempts[row], w.history.acknowledged[row], w.history.consumed[row])
  }

  ghost predicate Inv(w: World) {
    && Aligned(w)
    && (forall row :: 0 <= row < |w.db.jobs| ==> RowSound(w, row))
    && Chained(w.db.jobs)
  }

  /** A database without jobs, whatever its accounts, settings and content. */
  lemma EmptySound(db: Db)
    requires db.jobs == [] && db.attempts == []
    ensures Inv(World(db, History([], [], [], [])))
  {
  }

  /** Where every run starts: nothing enqueued yet. */
  ghost function Start(db: Db): (w: World)
    requires db.jobs == [] && db.attempts == []
    ensures Inv(w) && w.db == db && w.history == History([], [], [], [])
  {
    EmptySound(db);
    World(db, History([], [], [], []))
  }

  lemma InvRows(w: World)
    requires Inv(w)
    ensures forall row: nat :: row < |w.db.jobs| ==> RowAligned(w, row)
  {
    hide Job.Valid, Attempt.Valid, Fenced, Sequenced, AvailabilityTells, Concluded, WithinLimit;
    forall row: nat | row < |w.db.jobs| ensures RowAligned(w, row) {
      RowsAligned(w, row);
    }
  }

  lemma RowsAligned(w: World, row: nat)
    requires Inv(w) && row < |w.db.jobs|
    ensures RowAligned(w, row)
  {
    hide Attempt.Valid, Fenced, Sequenced, AvailabilityTells, Concluded, WithinLimit, Job.Terminal;
    assert RowSound(w, row) && Linked(w.db.jobs, row);
    assert RowSound(w, w.db.jobs[row].origin.root);
    assert forall k :: 0 <= k < |w.db.attempts[row]| ==> Recorded(w.db.attempts[row][k], row, k);
  }

  // ---- One change ----

  lemma PlainSound(w: World, after: World)
    requires Inv(w) && Explains(w, after, Plain)
    ensures Inv(after)
  {
    hide RowOk, Around, Chained, JobStep;
    forall row | 0 <= row < |after.db.jobs| ensures RowSound(after, row) {
      assert RowSound(w, row);
      PlainKeepsRow(w.db.jobs[row], after.db.jobs[row], row, w.db.attempts[row], w.history.acknowledged[row], w.history.consumed[row]);
    }
    PlainRanks(w.db, after.db);
    SameRankKeepsChains(w.db.jobs, after.db.jobs);
  }

  lemma PlainRanks(db: Db, after: Db)
    requires Quiet(db, after)
    ensures forall i :: 0 <= i < |db.jobs| ==> SameRank(after.jobs[i].origin, db.jobs[i].origin)
  {
    hide Job.Valid, Around;
    forall i | 0 <= i < |db.jobs| ensures SameRank(after.jobs[i].origin, db.jobs[i].origin) {
      assert JobStep(db.jobs[i], after.jobs[i]);
    }
  }

  lemma AdmittingSound(w: World, after: World, row: nat, attempt: Attempt)
    requires Inv(w) && Explains(w, after, Admitting(row, attempt))
    ensures Inv(after)
  {
    hide RowOk, ReservationFacts, Chained;
    forall i | 0 <= i < |after.db.jobs| ensures RowSound(after, i) {
      assert RowSound(w, i);
      if i == row {
        ReserveKeepsRow(w.db, row, attempt, w.history.acknowledged[row], w.history.consumed[row]);
      }
    }
  }

  lemma CallingSound(w: World, after: World, row: nat, number: int, tokens: int)
    requires Inv(w) && Explains(w, after, Calling(row, number, tokens))
    ensures Inv(after)
  {
    hide RowOk, Chained;
    forall i | 0 <= i < |after.db.jobs| ensures RowSound(after, i) {
      assert RowSound(w, i);
      if i == row {
        RowLengths(w, row);
        CallKeepsRow(w.db.jobs[row], row, w.db.attempts[row], w.history.acknowledged[row], w.history.consumed[row], number - 1, tokens);
      }
    }
  }

  lemma RowLengths(w: World, row: nat)
    requires Inv(w) && row < |w.db.jobs|
    ensures |w.history.consumed[row]| == |w.db.attempts[row]|
  {
    hide Job.Valid, Numbered, Fenced, Sequenced, AvailabilityTells, Concluded, Chained;
    assert RowSound(w, row);
  }

  lemma RequeuingSound(w: World, after: World, row: nat)
    requires Inv(w) && Explains(w, after, Requeuing(row))
    ensures Inv(after)
  {
    hide RowOk, Chained, Job.Valid;
    forall i | 0 <= i < |after.db.jobs| ensures RowSound(after, i) {
      assert RowSound(w, i);
      if i == row {
        RequeueKeepsRow(w.db, row, after.db.jobs[row], w.history.acknowledged[row], w.history.consumed[row]);
      }
    }
    SameRankKeepsChains(w.db.jobs, after.db.jobs);
  }

  lemma ObservedMeasured(w: World, after: World, row: nat, number: int)
    requires w.db.Shaped() && ObservedTruly(w, after, row, number)
    ensures Measured(after.db.attempts[row][number - 1])
  {
  }

  lemma ObservingSound(w: World, after: World, row: nat, number: int)
    requires Inv(w) && Explains(w, after, Observing(row, number))
    ensures Inv(after)
  {
    hide RowOk, Chained, ValidAttemptTransition, Measured;
    ObservedMeasured(w, after, row, number);
    forall i | 0 <= i < |after.db.jobs| ensures RowSound(after, i) {
      assert RowSound(w, i);
      if i == row {
        ObserveKeepsRow(w.db.jobs[row], row, w.db.attempts[row], w.history.acknowledged[row], w.history.consumed[row],
                        number - 1, after.db.attempts[row][number - 1]);
      }
    }
  }

  /** A step that only adds rows. */
  lemma GrowthSound(w: World, after: World, root: Option<nat>)
    requires Inv(w) && Grew(w.db, after.db, root)
    requires var h := Grown(w.history, |after.db.jobs|);
             after.history.acknowledged == h.acknowledged && after.history.consumed == h.consumed
    ensures Inv(after)
  {
    hide RowOk, Chained, Members;
    assert forall i :: 0 <= i < |w.db.jobs| ==> after.db.jobs[..|w.db.jobs|][i] == after.db.jobs[i] == w.db.jobs[i];
    forall i | 0 <= i < |after.db.jobs| ensures RowSound(after, i) {
      if i < |w.db.jobs| {
        assert RowSound(w, i);
      } else {
        assert NewRow(after.db.jobs, i, root);
        FreshRow(after.db.jobs[i], i);
      }
    }
    GrowthKeepsChains(w.db, after.db, root);
  }

  lemma PublishingSound(w: World, after: World, row: nat, version: int, p: Printing)
    requires Inv(w) && Explains(w, after, Publishing(row, version, p))
    ensures Inv(after)
    ensures p.number == |w.db.attempts[row]| && !w.history.acknowledged[row]
  {
    hide RowOk, Chained, Grew, Inserted, SourceValid, ValidTransition, Grown;
    var mid := World(w.db.WithJob(row, Printed(w.db.jobs[row], p)),
                     w.history.(publications := w.history.publications + [Publication(row, p.number, p.output, p.resultId)]));
    forall i | 0 <= i < |mid.db.jobs| ensures RowSound(mid, i) {
      assert RowSound(w, i);
      if i == row {
        PublishKeepsRow(w.db.jobs[row], row, w.db.attempts[row], w.history.acknowledged[row], w.history.consumed[row], p);
      }
    }
    PublishKeepsRowOf(w, row, p);
    SameRankKeepsChains(w.db.jobs, mid.db.jobs);
    GrowthSound(mid, after, Some(w.db.jobs[row].origin.root));
  }

  lemma PublishKeepsRowOf(w: World, row: nat, p: Printing)
    requires Inv(w) && row < |w.db.jobs|
    requires 1 <= p.number <= |w.db.attempts[row]| && w.db.attempts[row][p.number - 1].decision == Some(Publish)
    requires ValidTransition(w.db.jobs[row], Printed(w.db.jobs[row], p), w.db.jobs[row].lease, p.now, Some(w.db.attempts[row][p.number - 1]))
    ensures p.number == |w.db.attempts[row]| && !w.history.acknowledged[row]
  {
    hide RowOk, Chained, ValidTransition;
    assert RowSound(w, row);
    PublishKeepsRow(w.db.jobs[row], row, w.db.attempts[row], w.history.acknowledged[row], w.history.consumed[row], p);
  }

  lemma ChangeSound(w: World, after: World, c: Change)
    requires Inv(w) && Explains(w, after, c)
    ensures Inv(after)
  {
    hide RowSound, Chained, Quiet, ReservationFacts, Published, ObservedTruly, RequeueFacts, Growing;
    match c
    case Plain => PlainSound(w, after);
    case Admitting(row, attempt) => AdmittingSound(w, after, row, attempt);
    case Calling(row, number, tokens) => CallingSound(w, after, row, number, tokens);
    case Requeuing(row) => RequeuingSound(w, after, row);
    case Observing(row, number) => ObservingSound(w, after, row, number);
    case Publishing(row, version, p) => PublishingSound(w, after, row, version, p);
    case Extending(root) => ExtendingSound(w, after, root);
  }

  lemma ExtendingSound(w: World, after: World, root: Option<nat>)
    requires Inv(w) && Explains(w, after, Extending(root))
    ensures Inv(after)
  {
    hide Inv, Grew, Around;
    GrowthSound(w, after, root);
  }

  /** Every honest event keeps the invariant, at any clock readings. */
  lemma EventSound(w: World, e: Event) returns (c: Change)
    requires Inv(w) && Honest(w, e)
    ensures Explains(w, Apply(w, e), c) && Causes(w, e, c) && Inv(Apply(w, e))
  {
    hide RowSound, Chained, Explains, Causes, Apply, Honest;
    InvRows(w);
    c := Explained(w, e);
    ChangeSound(w, Apply(w, e), c);
  }

  // ---- Runs ----

  lemma Step(w: World, e: Event)
    requires Inv(w) && Honest(w, e)
    ensures Inv(Apply(w, e))
  {
    hide *;
    var _ := EventSound(w, e);
  }

  /** Every event of a run meets the environment's promises in the state it happens in. */
  ghost predicate HonestRun(w: World, events: seq<Event>)
    requires Inv(w)
    decreases |events|
  {
    events != [] ==> Honest(w, events[0]) && (Step(w, events[0]); HonestRun(Apply(w, events[0]), events[1..]))
  }

  ghost function Run(w: World, events: seq<Event>): (r: World)
    requires Inv(w) && HonestRun(w, events)
    ensures Inv(r)
    decreases |events|
  {
    if events == [] then w else (Step(w, events[0]); Run(Apply(w, events[0]), events[1..]))
  }
}
