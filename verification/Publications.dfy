/** Exactly-once publication, its replay, and what revokes the authority to publish. */
module Publications {
  import opened Basics
  import opened Policies
  import opened Attempts
  import opened Jobs
  import opened Eligibility
  import opened Tables
  import opened Transactions
  import opened Protocol
  import opened Effects
  import opened Growth
  import opened Changes
  import opened Histories
  import opened Invariants
  import Retries

  /** The result row of a publication, as written. */
  ghost predicate Stored(db: Db, job: Job, p: Publication) {
    if job.origin.output == OutputReply then
      && job.resultReply == Some(p.resultId) && p.resultId in db.replies
      && db.replies[p.resultId].author == job.origin.agent && db.replies[p.resultId].content == p.output.content
      && job.origin.sourcePost == Some(db.replies[p.resultId].post)
    else
      && job.resultPost == Some(p.resultId) && p.resultId in db.posts
      && db.posts[p.resultId].author == job.origin.agent && db.posts[p.resultId].content == p.output.content
  }

  /** A publication made: its job succeeded with its last attempt, under its current lease, bound to this output. */
  ghost predicate Made(db: Db, p: Publication)
    requires db.Shaped()
  {
    && p.row < |db.jobs|
    && var job, attempts := db.jobs[p.row], db.attempts[p.row];
    && job.status == JobSucceeded && p.number == |attempts| >= 1 && job.published == Some(p.number)
    && attempts[p.number - 1].digest == Some(p.output) && attempts[p.number - 1].lease == job.lease
    && p.output.decision == Publish && p.output.kind == job.origin.output
    && Stored(db, job, p)
  }

  ghost predicate ExactlyOnce(w: World)
    requires w.db.Shaped()
  {
    var ps := w.history.publications;
    && (forall i :: 0 <= i < |ps| ==> Made(w.db, ps[i]))
    && (forall i, j :: 0 <= i < j < |ps| ==> ps[i].row != ps[j].row)
    && (forall row :: 0 <= row < |w.db.jobs| && w.db.jobs[row].status == JobSucceeded ==> Has(ps, row))
  }

  ghost predicate Has(ps: seq<Publication>, row: nat) {
    exists i :: 0 <= i < |ps| && ps[i].row == row
  }

  // ---- Preservation ----

  /** A succeeded row stays as it is, and so does its result row. */
  ghost predicate Settles(before: Db, after: Db)
    requires before.Shaped() && after.Shaped()
  {
    && |before.jobs| <= |after.jobs| && SourcesGrow(before, after)
    && forall row :: 0 <= row < |before.jobs| && before.jobs[row].status == JobSucceeded ==> RowSettled(before, after, row)
  }

  ghost predicate RowSettled(before: Db, after: Db, row: nat)
    requires before.Shaped() && after.Shaped() && row < |before.jobs| <= |after.jobs|
  {
    && SameRank(after.jobs[row].origin, before.jobs[row].origin)
    && after.jobs[row] == before.jobs[row].(origin := after.jobs[row].origin) && after.attempts[row] == before.attempts[row]
  }

  lemma MadeStays(before: Db, after: Db, p: Publication)
    requires before.Shaped() && after.Shaped() && Settles(before, after) && Made(before, p)
    ensures Made(after, p)
  {
    assert RowSettled(before, after, p.row);
  }

  lemma ChangeSettles(w: World, after: World, c: Change)
    requires Inv(w) && Explains(w, after, c) && Inv(after)
    ensures Settles(w.db, after.db)
    ensures !c.Publishing? ==>
              && after.history.publications == w.history.publications
              && forall row :: 0 <= row < |after.db.jobs| && after.db.jobs[row].status == JobSucceeded ==>
                   row < |w.db.jobs| && w.db.jobs[row].status == JobSucceeded
  {
    hide RowSound, Chains.Chained, Attempt.Valid, SourceValid, Settings.Valid, InvalidOutputs, Charge, SourcesGrow, Settles, Quiet,
         Growing, Published, ObservedTruly, Job.Valid;
    match c
    case Plain => PlainSettles(w.db, after.db);
    case Admitting(row, attempt) => OneRowSettles(w.db, after.db, row);
    case Calling(row, number, tokens) => SettlesRefl(w.db);
    case Requeuing(row) => OneRowSettles(w.db, after.db, row);
    case Observing(row, number) => ObservedSettles(w, after, row, number);
    case Publishing(row, version, p) => PublishingSettles(w, after, row, version, p);
    case Extending(root) => GrowingSettles(w.db, after.db, root);
  }

  /** A step on one unpublished row. */
  lemma OneRowSettles(before: Db, after: Db, row: nat)
    requires before.Shaped() && after.Shaped() && |after.jobs| == |before.jobs|
    requires after.posts == before.posts && after.replies == before.replies
    requires row < |before.jobs| && before.jobs[row].status != JobSucceeded && after.jobs[row].status != JobSucceeded
    requires forall i :: 0 <= i < |before.jobs| && i != row ==> after.jobs[i] == before.jobs[i] && after.attempts[i] == before.attempts[i]
    ensures Settles(before, after)
    ensures forall i :: 0 <= i < |after.jobs| && after.jobs[i].status == JobSucceeded ==> before.jobs[i].status == JobSucceeded
  {
  }

  lemma ObservedSettles(w: World, after: World, row: nat, number: int)
    requires Inv(w) && Explains(w, after, Observing(row, number)) && after.db.Shaped()
    ensures Settles(w.db, after.db) && after.db.jobs == w.db.jobs
  {
    hide RowSound, Chains.Chained, ValidAttemptTransition;
    ObservedUnfinished(w, after, row, number);
    OneRowSettles(w.db, after.db, row);
  }

  lemma PublishingSettles(w: World, after: World, row: nat, version: int, p: Printing)
    requires Inv(w) && Explains(w, after, Publishing(row, version, p)) && after.db.Shaped()
    ensures Settles(w.db, after.db)
  {
    hide RowSound, Chains.Chained, Grew, Inserted, ValidTransition, SourceValid, SourcesGrow;
    GrewRows(w.db.WithJob(row, Printed(w.db.jobs[row], p)), after.db, Some(w.db.jobs[row].origin.root));
  }

  lemma PlainSettles(before: Db, after: Db)
    requires before.Shaped() && after.Shaped() && Quiet(before, after)
    ensures Settles(before, after)
    ensures forall row :: 0 <= row < |after.jobs| && after.jobs[row].status == JobSucceeded ==> before.jobs[row].status == JobSucceeded
  {
    hide SourcesGrow, Job.Valid;
    forall row | 0 <= row < |before.jobs|
      ensures before.jobs[row].status == JobSucceeded ==> RowSettled(before, after, row)
      ensures after.jobs[row].status == JobSucceeded ==> before.jobs[row].status == JobSucceeded
    {
      assert JobStep(before.jobs[row], after.jobs[row]);
    }
  }

  lemma ObservedUnfinished(w: World, after: World, row: nat, number: int)
    requires Inv(w) && Explains(w, after, Observing(row, number))
    ensures w.db.jobs[row].status != JobSucceeded
  {
    hide Chains.Chained, RowOk, Attempt.Valid, Measured;
    Retries.Sound(w, row);
    ObservedMeasured(w, after, row, number);
    ObserveKeepsRow(w.db.jobs[row], row, w.db.attempts[row], w.history.acknowledged[row], w.history.consumed[row], number - 1,
                    after.db.attempts[row][number - 1]);
  }

  lemma GrowingSettles(before: Db, after: Db, root: Option<nat>)
    requires before.Shaped() && after.Shaped() && Growing(before, after, root)
    ensures Settles(before, after)
    ensures forall row :: 0 <= row < |after.jobs| && after.jobs[row].status == JobSucceeded ==>
              row < |before.jobs| && before.jobs[row].status == JobSucceeded
  {
    hide SourcesGrow, Grew;
    GrewRows(before, after, root);
  }

  lemma PublishingMade(w: World, after: World, row: nat, version: int, p: Printing)
    requires Inv(w) && Explains(w, after, Publishing(row, version, p)) && after.db.Shaped()
    ensures Made(after.db, Publication(row, p.number, p.output, p.resultId))
    ensures forall i :: 0 <= i < |after.db.jobs| && after.db.jobs[i].status == JobSucceeded ==>
              i == row || (i < |w.db.jobs| && w.db.jobs[i].status == JobSucceeded)
  {
    hide RowSound, Chains.Chained, Job.Valid, Attempt.Valid, SourceValid, Around, Grew;
    PublishKeepsRowOf(w, row, p);
    var mid := w.db.WithJob(row, Printed(w.db.jobs[row], p));
    GrewRows(mid, after.db, Some(w.db.jobs[row].origin.root));
  }

  lemma ChangeExactlyOnce(w: World, after: World, c: Change)
    requires Inv(w) && Explains(w, after, c) && Inv(after) && ExactlyOnce(w)
    ensures ExactlyOnce(after)
  {
    hide RowSound, Chains.Chained, Explains, Made, Settles;
    ChangeSettles(w, after, c);
    var ps, qs := w.history.publications, after.history.publications;
    forall i | 0 <= i < |ps| ensures Made(after.db, ps[i]) && ps[i].row < |w.db.jobs| && w.db.jobs[ps[i].row].status == JobSucceeded {
      MadeStays(w.db, after.db, ps[i]);
      MadeSucceeded(w.db, ps[i]);
    }
    if c.Publishing? {
      PublishedHistory(w, after, c);
      PublishingMade(w, after, c.row, c.version, c.printing);
      forall row: nat | row < |after.db.jobs| && after.db.jobs[row].status == JobSucceeded ensures Has(qs, row) {
        if row == c.row {
          assert qs[|ps|].row == row;
        } else {
          assert Has(ps, row);
          var i :| 0 <= i < |ps| && ps[i].row == row;
          assert qs[i].row == row;
        }
      }
    }
  }

  lemma MadeSucceeded(db: Db, p: Publication)
    requires db.Shaped() && Made(db, p)
    ensures p.row < |db.jobs| && db.jobs[p.row].status == JobSucceeded
  {
  }

  lemma PublishedHistory(w: World, after: World, c: Change)
    requires w.db.Shaped() && c.Publishing? && Explains(w, after, c)
    ensures after.history.publications == w.history.publications + [Publication(c.row, c.printing.number, c.printing.output, c.printing.resultId)]
    ensures w.db.jobs[c.row].status == Running
  {
    hide Grew, Around, Inserted, ValidTransition, SourceValid;
  }

  /** In every reachable state a job has exactly one publication if and only if it succeeded: of its last attempt, made
      under its current lease, with the digest of the published output, and with its result row stored. */
  lemma {:induction false} RunExactlyOnce(w: World, events: seq<Event>)
    requires Inv(w) && HonestRun(w, events) && ExactlyOnce(w)
    ensures ExactlyOnce(Run(w, events))
    decreases |events|
  {
    hide RowSound, Chains.Chained, ExactlyOnce, Explains, Apply, Honest;
    if events != [] {
      var c := EventSound(w, events[0]);
      ChangeExactlyOnce(w, Apply(w, events[0]), c);
      RunExactlyOnce(Apply(w, events[0]), events[1..]);
    }
  }

  /** Runs from an empty table publish each job at most once, and exactly the succeeded ones. */
  lemma PublishedIffSucceeded(db: Db, events: seq<Event>, row: nat)
    requires db.jobs == [] && db.attempts == [] && HonestRun(Start(db), events)
    requires row < |Run(Start(db), events).db.jobs|
    ensures var w := Run(Start(db), events);
            && (w.db.jobs[row].status == JobSucceeded <==> Has(w.history.publications, row))
            && (forall i, j :: 0 <= i < j < |w.history.publications| ==> w.history.publications[i].row != w.history.publications[j].row)
            && (forall i :: 0 <= i < |w.history.publications| ==> Made(w.db, w.history.publications[i]))
  {
    hide RowSound, Chains.Chained, Run, HonestRun, Stored;
    RunExactlyOnce(Start(db), events);
  }

  // ---- Replay ----

  lemma {:induction false} RunSettles(w: World, events: seq<Event>)
    requires Inv(w) && HonestRun(w, events)
    ensures Settles(w.db, Run(w, events).db)
    decreases |events|
  {
    hide RowSound, Chains.Chained, Explains, Apply, Honest, Settles;
    if events == [] {
      SettlesRefl(w.db);
    } else {
      var c := EventSound(w, events[0]);
      ChangeSettles(w, Apply(w, events[0]), c);
      RunSettles(Apply(w, events[0]), events[1..]);
      SettlesChain(w.db, Apply(w, events[0]).db, Run(w, events).db);
    }
  }

  lemma SettlesRefl(db: Db)
    requires db.Shaped()
    ensures Settles(db, db)
  {
  }

  lemma SettlesChain(a: Db, b: Db, c: Db)
    requires a.Shaped() && b.Shaped() && c.Shaped() && Settles(a, b) && Settles(b, c)
    ensures Settles(a, c)
  {
    forall row | 0 <= row < |a.jobs| && a.jobs[row].status == JobSucceeded ensures RowSettled(a, c, row) {
      assert RowSettled(a, b, row) && RowSettled(b, c, row);
    }
  }

  /** A published job answers the same publication the same way forever, and no other: the replay changes nothing,
      whatever happened since, and any other attempt, lease or output is refused. */
  lemma ReplayIsExact(w: World, row: nat, version: int, p: Printing, events: seq<Event>, again: Printing, fence: int)
    requires Inv(w) && row < |w.db.jobs| && w.db.jobs[row].status != JobSucceeded
    requires PublishJob(w.db, row, version, p).Commit?
    requires Inv(Apply(w, DoPublish(row, version, p))) && HonestRun(Apply(w, DoPublish(row, version, p)), events)
    ensures var after := Run(Apply(w, DoPublish(row, version, p)), events).db;
            var r := PublishJob(after, row, fence, again);
            && row < |after.jobs|
            && (fence == version && again.number == p.number && again.output == p.output ==> r == Commit(after, after.jobs[row]))
            && (r.Commit? ==> fence == version && again.number == p.number && again.output == p.output)
  {
    hide RowSound, Chains.Chained, Explains, Run, HonestRun, PublishJob, Settles;
    var printed := Apply(w, DoPublish(row, version, p));
    PublishCommits(w, row, version, p);
    PublishingMade(w, printed, row, version, p);
    RunSettles(printed, events);
    var after := Run(printed, events);
    var made := Publication(row, p.number, p.output, p.resultId);
    MadeStays(printed.db, after.db, made);
    Retries.Sound(after, row);
    ReplayOf(after, made, fence, again);
    SettledLease(printed.db, after.db, row);
    PublishedLease(w, printed, row, version, p);
  }

  lemma SettledLease(before: Db, after: Db, row: nat)
    requires before.Shaped() && after.Shaped() && Settles(before, after) && row < |before.jobs| && before.jobs[row].status == JobSucceeded
    ensures after.jobs[row].lease == before.jobs[row].lease
  {
    assert RowSettled(before, after, row);
  }

  lemma PublishedLease(w: World, after: World, row: nat, version: int, p: Printing)
    requires Inv(w) && Explains(w, after, Publishing(row, version, p)) && row < |after.db.jobs|
    ensures after.db.jobs[row].lease == version
  {
    hide RowSound, Chains.Chained, Job.Valid, Attempt.Valid, SourceValid, Around, Inserted, Grew;
    var mid := w.db.WithJob(row, Printed(w.db.jobs[row], p));
    GrewRows(mid, after.db, Some(w.db.jobs[row].origin.root));
  }

  lemma PublishCommits(w: World, row: nat, version: int, p: Printing)
    requires Inv(w) && row < |w.db.jobs| && w.db.jobs[row].status != JobSucceeded && PublishJob(w.db, row, version, p).Commit?
    ensures Explains(w, Apply(w, DoPublish(row, version, p)), Publishing(row, version, p))
  {
    hide RowSound, Chains.Chained, Published, Quiet, Grown, PublishJob;
    RowsAligned(w, row);
    PublishEffect(w.db, row, version, p);
  }

  lemma ReplayOf(w: World, made: Publication, fence: int, again: Printing)
    requires Inv(w) && Made(w.db, made) && RowSound(w, made.row)
    ensures var r := PublishJob(w.db, made.row, fence, again);
            && (fence == w.db.jobs[made.row].lease && again.number == made.number && again.output == made.output ==>
                  r == Commit(w.db, w.db.jobs[made.row]))
            && (r.Commit? ==> fence == w.db.jobs[made.row].lease && again.number == made.number && again.output == made.output)
  {
    hide Chains.Chained, Job.Valid, Attempt.Valid, Stored, Sequenced, Fenced, AvailabilityTells, Accounted, PublishLive;
    assert Recorded(w.db.attempts[made.row][made.number - 1], made.row, made.number - 1);
  }
}
