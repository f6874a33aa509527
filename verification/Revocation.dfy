/** Authority that a pause or a removal takes away never comes back. */
module Revocation {
  import opened Basics
  import opened Policies
  import opened Attempts
  import opened Jobs
  import opened Eligibility
  import opened Tables
  import opened Transactions
  import opened Operations
  import opened Protocol
  import opened Effects
  import opened Growth
  import opened Changes
  import opened Histories
  import opened Invariants

  /** No attempt was reserved under a later revision than its agent's current one. */
  ghost predicate RevisionsBehind(db: Db)
    requires db.Shaped()
  {
    forall row, k :: 0 <= row < |db.jobs| && 0 <= k < |db.attempts[row]| ==> Behind(db, row, k)
  }

  ghost predicate Behind(db: Db, row: nat, k: nat)
    requires db.Shaped() && row < |db.jobs| && k < |db.attempts[row]|
  {
    && db.jobs[row].origin.agent in db.settings
    && db.attempts[row][k].pauseRevision.Some?
    && db.attempts[row][k].pauseRevision.value <= db.settings[db.jobs[row].origin.agent].pauseRevision
  }

  /** The attempt's agent was paused since its reservation. */
  ghost predicate Stale(db: Db, row: nat, k: nat)
    requires db.Shaped()
  {
    && row < |db.jobs| && k < |db.attempts[row]| && db.jobs[row].origin.agent in db.settings
    && db.attempts[row][k].pauseRevision.Some?
    && db.attempts[row][k].pauseRevision.value < db.settings[db.jobs[row].origin.agent].pauseRevision
  }

  /** The job's source post, reply or repost was removed. */
  ghost predicate Gone(db: Db, row: nat) {
    row < |db.jobs| && SourceGone(db, db.jobs[row].origin)
  }

  ghost predicate Revoked(db: Db, row: nat, k: nat)
    requires db.Shaped()
  {
    row < |db.jobs| && (Stale(db, row, k) || Gone(db, row))
  }

  // ---- What no change undoes ----

  /** Rows, agents and reservations stay; repost references are only ever cleared; settings and sources only grow. */
  ghost predicate Grows(before: Db, after: Db)
    requires before.Shaped() && after.Shaped()
  {
    && |before.jobs| <= |after.jobs| && Around(before, after)
    && forall row :: 0 <= row < |before.jobs| ==> RowGrows(before, after, row)
  }

  ghost predicate RowGrows(before: Db, after: Db, row: nat)
    requires before.Shaped() && after.Shaped() && row < |before.jobs| <= |after.jobs|
  {
    && SameRank(after.jobs[row].origin, before.jobs[row].origin)
    && (after.jobs[row].origin == before.jobs[row].origin || after.jobs[row].origin.sourceRepost.None?)
    && |before.attempts[row]| <= |after.attempts[row]|
    && forall k :: 0 <= k < |before.attempts[row]| ==>
         after.attempts[row][k].pauseRevision == before.attempts[row][k].pauseRevision
  }

  lemma AroundRefl(before: Db, after: Db)
    requires before.settings == after.settings && before.posts == after.posts && before.replies == after.replies
    ensures Around(before, after)
  {
  }

  lemma ChangeGrows(w: World, after: World, c: Change)
    requires Inv(w) && Explains(w, after, c) && Inv(after)
    ensures Grows(w.db, after.db)
  {
    hide RowSound, Chains.Chained, Around, Job.Valid, Attempt.Valid, PublicationChecked, Inserted, Grew, Settings.Valid, SourceValid,
         InvalidOutputs, Charge;
    match c
    case Plain =>
      forall row | 0 <= row < |w.db.jobs| ensures RowGrows(w.db, after.db, row) {
        assert JobStep(w.db.jobs[row], after.db.jobs[row]);
      }
    case Admitting(row, attempt) => AroundRefl(w.db, after.db);
    case Calling(row, number, tokens) => AroundRefl(w.db, after.db);
    case Requeuing(row) => AroundRefl(w.db, after.db);
    case Observing(row, number) => AroundRefl(w.db, after.db);
    case Publishing(row, version, p) =>
      GrewRows(w.db.WithJob(row, Printed(w.db.jobs[row], p)), after.db, Some(w.db.jobs[row].origin.root));
    case Extending(root) => GrewRows(w.db, after.db, root);
  }

  lemma RevokedStays(before: Db, after: Db, row: nat, k: nat)
    requires before.Shaped() && after.Shaped() && Grows(before, after) && Revoked(before, row, k)
    ensures Revoked(after, row, k)
  {
    assert RowGrows(before, after, row);
  }

  /** A source that is gone is not a valid one. */
  lemma GoneIsInvalid(db: Db, row: nat)
    requires Gone(db, row) && db.jobs[row].Valid()
    ensures !SourceValid(db, db.jobs[row].origin)
  {
  }

  /** A publication's attempt was reserved under the current revision, over a valid source. */
  lemma RevokedRefused(w: World, after: World, c: Change, row: nat, k: nat)
    requires Inv(w) && Explains(w, after, c) && Revoked(w.db, row, k)
    ensures !(c.Publishing? && c.row == row && c.printing.number == k + 1)
  {
    hide Chains.Chained, Attempt.Valid, SourceValid, SourceGone, Grew, Inserted, ValidTransition, Around;
    if Gone(w.db, row) {
      RowValid(w, row);
      GoneIsInvalid(w.db, row);
    }
  }

  lemma RowValid(w: World, row: nat)
    requires Inv(w) && row < |w.db.jobs|
    ensures w.db.jobs[row].Valid()
  {
    hide Job.Valid, Numbered, Fenced, Sequenced, AvailabilityTells, Concluded, Accounted, Chains.Chained;
    assert RowSound(w, row);
  }

  /** Publications made after a point of the run. */
  ghost predicate NoneSince(before: seq<Publication>, after: seq<Publication>, row: nat, number: int) {
    && |before| <= |after| && after[..|before|] == before
    && forall i :: |before| <= i < |after| ==> !(after[i].row == row && after[i].number == number)
  }

  lemma ChangePublishes(w: World, after: World, c: Change)
    requires Inv(w) && Explains(w, after, c)
    ensures after.history.publications == w.history.publications
              + (if c.Publishing? then [Publication(c.row, c.printing.number, c.printing.output, c.printing.resultId)] else [])
  {
    hide RowSound, Chains.Chained, Quiet, ReservationFacts, Published, ObservedTruly, RequeueFacts, Growing;
  }

  /** Once revoked, an attempt's output is never published, in any continuation of the run. */
  lemma {:induction false} RevokedNeverPublished(w: World, events: seq<Event>, row: nat, k: nat)
    requires Inv(w) && HonestRun(w, events) && Revoked(w.db, row, k)
    ensures NoneSince(w.history.publications, Run(w, events).history.publications, row, k + 1)
    decreases |events|
  {
    hide RowSound, Chains.Chained, Explains, Apply, Honest, Revoked, Grows;
    if events != [] {
      var c := EventSound(w, events[0]);
      var next := Apply(w, events[0]);
      ChangeGrows(w, next, c);
      RevokedStays(w.db, next.db, row, k);
      RevokedRefused(w, next, c, row, k);
      ChangePublishes(w, next, c);
      RevokedNeverPublished(next, events[1..], row, k);
    }
  }

  // ---- Pauses ----

  lemma ReservationsBehind(w: World, after: World, c: Change)
    requires Inv(w) && Explains(w, after, c) && Inv(after) && RevisionsBehind(w.db)
    ensures RevisionsBehind(after.db)
  {
    hide RowSound, Chains.Chained, Grows, Explains, Behind;
    ChangeGrows(w, after, c);
    forall row, k | 0 <= row < |after.db.jobs| && 0 <= k < |after.db.attempts[row]| ensures Behind(after.db, row, k) {
      NewAttempts(w, after, c, row, k);
      if row < |w.db.jobs| && k < |w.db.attempts[row]| {
        assert Behind(w.db, row, k);
        BehindStays(w.db, after.db, row, k);
      }
    }
  }

  lemma BehindStays(before: Db, after: Db, row: nat, k: nat)
    requires before.Shaped() && after.Shaped() && Grows(before, after) && row < |before.jobs| && k < |before.attempts[row]|
    requires Behind(before, row, k) && row < |after.jobs| && k < |after.attempts[row]|
    ensures Behind(after, row, k)
  {
    assert RowGrows(before, after, row);
  }

  /** A new attempt takes its agent's current revision. */
  lemma NewAttempts(w: World, after: World, c: Change, row: nat, k: nat)
    requires Inv(w) && Explains(w, after, c) && Inv(after) && row < |after.db.jobs| && k < |after.db.attempts[row]|
    ensures (row < |w.db.jobs| && k < |w.db.attempts[row]|) || Behind(after.db, row, k)
  {
    hide RowSound, Chains.Chained, Around, JobStep, Attempt.Valid, PublicationChecked, Inserted, Grew, Settings.Valid, SourceValid,
         InvalidOutputs, Charge, ValidAttemptTransition;
    match c
    case Publishing(r, version, p) =>
      NewRowsBare(w.db.WithJob(r, Printed(w.db.jobs[r], p)), after.db, Some(w.db.jobs[r].origin.root));
      GrewRows(w.db.WithJob(r, Printed(w.db.jobs[r], p)), after.db, Some(w.db.jobs[r].origin.root));
    case Extending(root) => NewRowsBare(w.db, after.db, root); GrewRows(w.db, after.db, root);
    case _ =>
  }

  lemma NewRowsBare(before: Db, after: Db, root: Option<nat>)
    requires before.Shaped() && Grew(before, after, root)
    ensures forall i :: |before.jobs| <= i < |after.attempts| ==> after.attempts[i] == []
  {
    hide NewRow, Members;
  }

  lemma {:induction false} RunBehind(w: World, events: seq<Event>)
    requires Inv(w) && HonestRun(w, events) && RevisionsBehind(w.db)
    ensures RevisionsBehind(Run(w, events).db)
    decreases |events|
  {
    hide RowSound, Chains.Chained, Explains, Apply, Honest, RevisionsBehind;
    if events != [] {
      var c := EventSound(w, events[0]);
      ReservationsBehind(w, Apply(w, events[0]), c);
      RunBehind(Apply(w, events[0]), events[1..]);
    }
  }

  /** A committed pause strictly raises the revision of every agent it names. */
  lemma {:induction false} PauseRaises(db: Db, agents: seq<Id>, single: bool, now: Instant, id: Id)
    requires Enable(db, agents, single, false, now).Commit? && id in agents && id in db.settings
    ensures var after := Enable(db, agents, single, false, now).db;
            id in after.settings && after.settings[id].pauseRevision > db.settings[id].pauseRevision
    decreases agents
  {
    hide Settings.Valid, Quiet;
    var last := agents[|agents| - 1];
    var done := Enable(db, agents[..|agents| - 1], single, false, now).db;
    EnableQuiet(db, agents[..|agents| - 1], single, false, now);
    QuietSettings(db, done, id);
    if last != id {
      PauseRaises(db, agents[..|agents| - 1], single, now, id);
    }
  }

  lemma QuietSettings(before: Db, after: Db, id: Id)
    requires Quiet(before, after) && id in before.settings
    ensures id in after.settings && before.settings[id].pauseRevision <= after.settings[id].pauseRevision
  {
    hide JobStep, SourcesGrow;
  }

  /** No run publishes output reserved before a pause of its agent: neither soon after the pause nor after a resume. */
  lemma PauseRevokes(db: Db, earlier: seq<Event>, agents: seq<Id>, single: bool, now: Instant, later: seq<Event>, row: nat, number: nat)
    requires db.jobs == [] && db.attempts == [] && HonestRun(Start(db), earlier)
    requires var w := Run(Start(db), earlier);
             && row < |w.db.jobs| && 1 <= number <= |w.db.attempts[row]| && w.db.jobs[row].origin.agent in agents
             && Enable(w.db, agents, single, false, now).Commit?
             && HonestRun(w, [DoEnable(agents, single, false, now)] + later)
    ensures var w := Run(Start(db), earlier);
            NoneSince(w.history.publications, Run(w, [DoEnable(agents, single, false, now)] + later).history.publications, row, number)
  {
    hide RowSound, Chains.Chained, Explains, Honest, Enable, Quiet, Run, HonestRun;
    var w := Run(Start(db), earlier);
    RunBehind(Start(db), earlier);
    assert Behind(w.db, row, number - 1);
    PauseStep(w, agents, single, now, later, row, number);
  }

  lemma RunFirst(w: World, e: Event, later: seq<Event>)
    requires Inv(w) && HonestRun(w, [e] + later)
    ensures Honest(w, e) && Inv(Apply(w, e)) && HonestRun(Apply(w, e), later)
    ensures Run(w, [e] + later) == Run(Apply(w, e), later)
  {
    hide RowSound, Chains.Chained, Honest, DbAfter, HistoryAfter;
    var events := [e] + later;
    assert events[0] == e && events[1..] == later;
    Step(w, e);
  }

  /** From a state where the attempt is not yet stale, a committed pause makes it stale for the rest of the run. */
  lemma PauseStep(w: World, agents: seq<Id>, single: bool, now: Instant, later: seq<Event>, row: nat, number: nat)
    requires Inv(w) && row < |w.db.jobs| && 1 <= number <= |w.db.attempts[row]| && Behind(w.db, row, number - 1)
    requires w.db.jobs[row].origin.agent in agents && Enable(w.db, agents, single, false, now).Commit?
    requires HonestRun(w, [DoEnable(agents, single, false, now)] + later)
    ensures NoneSince(w.history.publications, Run(w, [DoEnable(agents, single, false, now)] + later).history.publications, row, number)
  {
    hide RowSound, Chains.Chained, Explains, Honest, Enable, Quiet, Run, HonestRun;
    var pause := DoEnable(agents, single, false, now);
    RunFirst(w, pause, later);
    PauseRaises(w.db, agents, single, now, w.db.jobs[row].origin.agent);
    var paused := Apply(w, pause);
    PausedIsStale(w, pause, row, number - 1);
    RevokedNeverPublished(paused, later, row, number - 1);
    ExplainQuiet(w, pause);
    ChangePublishes(w, paused, Plain);
  }

  lemma PausedIsStale(w: World, pause: Event, row: nat, k: nat)
    requires Inv(w) && pause.DoEnable? && Inv(Apply(w, pause)) && row < |w.db.jobs| && k < |w.db.attempts[row]| && Behind(w.db, row, k)
    requires var id := w.db.jobs[row].origin.agent;
             id in Apply(w, pause).db.settings && Apply(w, pause).db.settings[id].pauseRevision > w.db.settings[id].pauseRevision
    ensures Revoked(Apply(w, pause).db, row, k)
  {
    hide RowSound, Chains.Chained, Enable, Around, Apply, Explains;
    ExplainQuiet(w, pause);
    ChangeGrows(w, Apply(w, pause), Plain);
    assert RowGrows(w.db, Apply(w, pause).db, row);
  }

  // ---- Removals ----

  /** The removal of the post, reply or repost a job responds to. */
  ghost predicate RemovesSource(db: Db, e: Event, o: Origin) {
    || (e.DoRemovePost? && o.sourcePost == Some(e.post) && RemovePost(db, e.post, e.rows, e.now).Commit?)
    || (e.DoRemoveReply? && o.sourceReply == Some(e.reply) && RemoveReply(db, e.reply, e.rows, e.now).Commit?)
    || (e.DoRemoveRepost? && o.sourceRepost == Some(e.repost) && o.kind == RepostTrigger
        && Reposted(db, e.repost, e.post) && RemoveRepost(db, e.repost, e.post, e.rows, e.now).Commit?)
  }

  lemma RemovedIsGone(db: Db, e: Event, row: nat)
    requires db.Shaped() && row < |db.jobs| && RemovesSource(db, e, db.jobs[row].origin)
    ensures Gone(DbAfter(db, e), row)
  {
    hide CancelRemoved, Quiet, Detach;
    match e
    case DoRemovePost(post, rows, now) =>
      var marked := db.(posts := db.posts[post := db.posts[post].(deleted := true)]);
      CancelQuiet(marked, post, rows, now);
      GoneStays(marked, CancelRemoved(marked, post, rows, now).db, row);
    case DoRemoveReply(reply, rows, now) =>
      var marked := db.(replies := db.replies[reply := db.replies[reply].(deleted := true)]);
      CancelQuiet(marked, db.replies[reply].post, rows, now);
      GoneStays(marked, CancelRemoved(marked, db.replies[reply].post, rows, now).db, row);
    case DoRemoveRepost(repost, post, rows, now) =>
      var cleared := Cleared(db, repost);
      DetachedGone(db, repost, row);
      CancelQuiet(cleared, post, rows, now);
      GoneStays(cleared, CancelRemoved(cleared, post, rows, now).db, row);
  }

  lemma DetachedGone(db: Db, repost: Id, row: nat)
    requires row < |db.jobs| && db.jobs[row].origin.sourceRepost == Some(repost) && db.jobs[row].origin.kind == RepostTrigger
    ensures Gone(Cleared(db, repost), row)
  {
    assert Cleared(db, repost).jobs[row] == Detach(db.jobs[row], repost);
  }

  lemma GoneStays(before: Db, after: Db, row: nat)
    requires Quiet(before, after) && Gone(before, row)
    ensures Gone(after, row)
  {
    hide Job.Valid;
    assert JobStep(before.jobs[row], after.jobs[row]);
  }

  /** No run publishes a job after its source post, reply or repost was removed. */
  lemma RemovalRevokes(w: World, removal: Event, later: seq<Event>, row: nat, number: nat)
    requires Inv(w) && HonestRun(w, [removal] + later) && row < |w.db.jobs| && RemovesSource(w.db, removal, w.db.jobs[row].origin)
    requires number >= 1
    ensures NoneSince(w.history.publications, Run(w, [removal] + later).history.publications, row, number)
  {
    hide RowSound, Chains.Chained, Explains, Honest, RemovePost, RemoveReply, RemoveRepost, Quiet, SourceGone, Run, HonestRun;
    RunFirst(w, removal, later);
    RemovedIsGone(w.db, removal, row);
    RevokedNeverPublished(Apply(w, removal), later, row, number - 1);
    ExplainQuiet(w, removal);
    ChangePublishes(w, Apply(w, removal), Plain);
  }
}
