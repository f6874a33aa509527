/** Steps that reserve new work: what scheduling, human actions, continuations and publications add. */
module Growth {
  import opened Basics
  import opened Policies
  import opened Attempts
  import opened Jobs
  import opened Eligibility
  import opened Admission
  import opened Tables
  import opened Transactions
  import opened Operations
  import opened Effects
  import Schedule

  /** A reservation of this step: its own root, or a child of the chain it extends. */
  ghost predicate NewRow(jobs: seq<Job>, i: nat, root: Option<nat>)
    requires i < |jobs|
  {
    var o := jobs[i].origin;
    && jobs[i].Valid() && jobs[i].status == Pending && o.row == i
    && match root
       case None => o.root == i
       case Some(r) =>
         r < i && o.root == r && o.depth > 0 && o.maxDepth == jobs[r].origin.maxDepth && o.maxJobs == jobs[r].origin.maxJobs
  }

  /** The job table only gains rows, and a chain gains no more than its root allows. */
  ghost predicate Grew(before: Db, after: Db, root: Option<nat>) {
    && Extends(before.jobs, after.jobs)
    && after.attempts == before.attempts + seq(|after.jobs| - |before.jobs|, _ => [])
    && (forall i :: |before.jobs| <= i < |after.jobs| ==> NewRow(after.jobs, i, root))
    && (root.Some? && |before.jobs| < |after.jobs| ==>
          root.value < |before.jobs| && before.jobs[root.value].origin.root == root.value
          && |Members(before.jobs, Chain(root.value))| + |after.jobs| - |before.jobs| <= before.jobs[root.value].origin.maxJobs)
  }

  lemma GrewRefl(db: Db, root: Option<nat>)
    ensures Grew(db, db, root)
  {
    assert db.attempts == db.attempts + seq(0, _ => []);
  }

  /** Rows a growth keeps, and rows it adds. */
  lemma GrewRows(before: Db, after: Db, root: Option<nat>)
    requires Grew(before, after, root)
    ensures |before.jobs| <= |after.jobs| && |before.attempts| <= |after.attempts|
    ensures forall i :: 0 <= i < |before.jobs| ==> after.jobs[i] == before.jobs[i]
    ensures forall i :: 0 <= i < |before.attempts| ==> after.attempts[i] == before.attempts[i]
    ensures forall i :: |before.jobs| <= i < |after.jobs| ==> after.jobs[i].status == Pending
  {
    hide Job.Valid, Members;
    assert forall i :: 0 <= i < |before.jobs| ==> after.jobs[..|before.jobs|][i] == after.jobs[i];
    forall i | |before.jobs| <= i < |after.jobs| ensures after.jobs[i].status == Pending {
      assert NewRow(after.jobs, i, root);
    }
  }

  /** A row whose root is a root, addressed by its own row number. */
  ghost predicate Rooted(jobs: seq<Job>, row: nat)
    requires row < |jobs|
  {
    var o := jobs[row].origin;
    o.root < |jobs| && o.depth >= 0 && jobs[o.root].origin.row == o.root == jobs[o.root].origin.root
  }

  function RootOf(line: Line): Option<nat> {
    match line
    case Direct => None
    case Child(_, root) => Some(root.origin.row)
  }

  /** What admission adds to a table is exactly such growth. */
  lemma AdmitGrows(db: Db, source: Source, line: Line, candidates: seq<Candidate>, clock: Instant)
    requires Admit(db.jobs, source, line, candidates, clock).Some?
    requires line.Child? ==> line.root.origin.row < |db.jobs| && line.root == db.jobs[line.root.origin.row] && line.parent.origin.depth >= 0
    requires line.Child? ==> line.root.origin.root == line.root.origin.row
    ensures var rows := Admit(db.jobs, source, line, candidates, clock).value;
            |db.jobs| <= |rows| && Grew(db, db.WithRows(rows), RootOf(line))
  {
    hide Admit, Sealed, Members, Job.Valid;
    var rows := Admit(db.jobs, source, line, candidates, clock).value;
    AdmitFacts(db.jobs, source, line, candidates, clock);
    var after := db.WithRows(rows);
    forall i | |db.jobs| <= i < |rows| ensures NewRow(rows, i, RootOf(line)) {
      assert SealedBy(rows, i, candidates, source, line, clock);
      var c :| c in candidates && Sealed(rows, i, c, source, line, clock);
      SealedIsNew(db.jobs, rows, i, c, source, line, clock);
    }
  }

  lemma SealedIsNew(jobs: seq<Job>, rows: seq<Job>, i: nat, c: Candidate, source: Source, line: Line, clock: Instant)
    requires Extends(jobs, rows) && |jobs| <= i < |rows| && Sealed(rows, i, c, source, line, clock)
    requires line.Child? ==> line.root.origin.row < |jobs| && line.root == jobs[line.root.origin.row] && line.parent.origin.depth >= 0
    ensures NewRow(rows, i, RootOf(line))
  {
    hide Job.Valid, Allowance, Willing, Taken, Policy.Valid;
    if line.Child? {
      assert rows[..|jobs|][line.root.origin.row] == rows[line.root.origin.row];
    }
  }

  // ---- Scheduling, actions and continuations ----

  /** A step that may only add work and rows around the protocol. */
  ghost predicate Growing(before: Db, after: Db, root: Option<nat>) {
    Grew(before, after, root) && Around(before, after)
  }

  lemma GrowingRefl(db: Db, root: Option<nat>)
    ensures Growing(db, db, root)
  {
    GrewRefl(db, root);
  }

  lemma TouchGrows(db: Db, agent: Id, changed: Settings)
    requires agent in db.settings && changed.agent == db.settings[agent].agent
    requires db.settings[agent].pauseRevision <= changed.pauseRevision
    ensures Growing(db, db.(settings := db.settings[agent := changed]), None)
  {
    GrewRefl(db, None);
  }

  /** One own-rooted row over an otherwise settled step. */
  lemma SlotGrows(db: Db, moved: Db, job: Job)
    requires moved.jobs == db.jobs && moved.attempts == db.attempts && Around(db, moved)
    requires job.Valid() && job.status == Pending && job.origin.row == |db.jobs| == job.origin.root
    ensures Growing(db, moved.WithRows(db.jobs + [job]), None)
  {
    hide Job.Valid;
  }

  lemma ScheduleGrows(db: Db, agent: Id, now: Instant, draw: Schedule.Draw, uuid: nat)
    ensures var r := ScheduleAgent(db, agent, now, draw, uuid); r.Commit? ==> Growing(db, r.db, None)
  {
    hide Job.Valid, Settings.Valid, Schedule.Advance, Members, Growing, Grew, Around, SlotDay, Taken;
    GrowingRefl(db, None);
    if agent in db.settings {
      var s := db.settings[agent];
      TouchGrows(db, agent, s.(updatedAt := now));
      if s.Valid() && Schedule.Advance(s, now, draw).Some? {
        var advanced := Schedule.Advance(s, now, draw).value;
        var next := advanced.settings;
        var kept := s.(updatedAt := now, nextPostAt := next.nextPostAt, scheduleDate := next.scheduleDate, remaining := next.remaining);
        var moved := db.(settings := db.settings[agent := kept]);
        TouchGrows(db, agent, kept);
        assert Around(db, moved) by { AroundOf(db, moved); }
        if advanced.due.Some? {
          var job := SlotJob(|db.jobs|, uuid, s, advanced.due.value, now);
          if job.Valid() {
            SlotGrows(db, moved, job);
          }
        }
      }
    }
  }

  lemma AroundOf(db: Db, after: Db)
    requires Growing(db, after, None)
    ensures Around(db, after)
  {
    hide Around, Grew;
  }

  lemma ActGrows(db: Db, kind: Trigger, action: Id, actor: Id, target: Option<Id>, content: Content, at: Instant,
                 picks: seq<Pick>, now: Instant)
    ensures var r := Act(db, kind, action, actor, target, content, at, picks, now); r.Commit? ==> Growing(db, r.db, None)
  {
    hide Admit, Grew, CandidatesOf, SocialSource;
    var r := Act(db, kind, action, actor, target, content, at, picks, now);
    if r.Commit? {
      var written := WriteAction(db, kind, action, actor, target, content, at).value;
      var source := SocialSource(written, kind, action).value;
      AdmitGrows(written, source, Direct, CandidatesOf(written, picks, actor), now);
      GrewFrom(db, written, r.db, None);
    }
  }

  /** Growth is about jobs and attempts only. */
  lemma GrewFrom(db: Db, touched: Db, after: Db, root: Option<nat>)
    requires db.jobs == touched.jobs && db.attempts == touched.attempts && Grew(touched, after, root)
    ensures Grew(db, after, root)
  {
  }

  lemma ContinueGrows(db: Db, row: nat, picks: seq<Pick>, now: Instant)
    requires db.Shaped()
    requires row < |db.jobs| ==> Rooted(db.jobs, row)
    ensures var r := Continue(db, row, picks, now);
            r.Commit? ==> row < |db.jobs| && Growing(db, r.db, Some(db.jobs[row].origin.root))
  {
    hide Admit, Grew, CandidatesOf, Proven, ResultSource;
    var r := Continue(db, row, picks, now);
    if r.Commit? {
      var source := ResultSource(db, db.jobs[row]).value;
      var candidates := if AccountLive(db, source.actor) then CandidatesOf(db, picks, source.actor) else [];
      AdmitGrows(db, source, Child(db.jobs[row], db.jobs[db.jobs[row].origin.root]), candidates, now);
    }
  }

  // ---- Publication ----

  /** What a committed publication proved before its writes. */
  ghost predicate PublicationChecked(db: Db, row: nat, version: int, p: Printing)
    requires db.Shaped() && row < |db.jobs|
  {
    var job := db.jobs[row];
    && job.status == Running && job.lease == version && 1 <= p.number <= |db.attempts[row]|
    && var attempt := db.attempts[row][p.number - 1];
    && ValidTransition(job, Printed(job, p), version, p.now, Some(attempt))
    && attempt.digest == Some(p.output) && attempt.decision == Some(Publish) && p.output.decision == Publish
    && p.output.kind == job.origin.output
    && job.origin.agent in db.settings && attempt.pauseRevision == Some(db.settings[job.origin.agent].pauseRevision)
    && SourceValid(db, job.origin)
  }

  /** The result row a publication inserts under a fresh id; no other content changes. */
  ghost predicate Inserted(db: Db, after: Db, job: Job, p: Printing) {
    if job.origin.output == OutputReply then
      && p.resultId !in db.replies && job.origin.sourcePost.Some? && after.posts == db.posts
      && after.replies == db.replies[p.resultId := Reply(job.origin.sourcePost.value, job.origin.agent, false, p.now, p.output.content)]
    else
      && p.resultId !in db.posts && after.replies == db.replies
      && after.posts == db.posts[p.resultId := Post(job.origin.agent, if job.origin.output == OutputQuote then job.origin.sourcePost else None,
                                                    false, p.now, p.output.content)]
  }

  ghost predicate Published(db: Db, after: Db, row: nat, version: int, p: Printing)
    requires db.Shaped() && row < |db.jobs|
  {
    && PublicationChecked(db, row, version, p) && Inserted(db, after, db.jobs[row], p)
    && Grew(db.WithJob(row, Printed(db.jobs[row], p)), after, Some(db.jobs[row].origin.root))
    && Around(db, after)
  }

  lemma PrintEffect(db: Db, row: nat, s: Settings, p: Printing)
    requires row < |db.jobs| && db.Shaped() && Rooted(db.jobs, row)
    requires db.jobs[row].origin.agent in db.settings && s == db.settings[db.jobs[row].origin.agent]
    ensures var r := Print(db, row, s, p);
            r.Some? ==>
              && Inserted(db, r.value, db.jobs[row], p) && Around(db, r.value)
              && Grew(db.WithJob(row, Printed(db.jobs[row], p)), r.value, Some(db.jobs[row].origin.root))
  {
    hide Admit, Grew, CandidatesOf, Printed, InsertContent, SourcesGrow, Inserted;
    var r := Print(db, row, s, p);
    if r.Some? {
      var job := db.jobs[row];
      var after := Printed(job, p);
      PrintedOrigin(job, p);
      InsertionEffect(db, job, p, r.value);
      var stored := InsertContent(db, job, p).value;
      var written := stored.WithJob(row, after).(settings := db.settings[job.origin.agent := s.(lastPublishedAt := Some(p.now), updatedAt := p.now)]);
      var line := Child(after, written.jobs[job.origin.root]);
      AdmitGrows(written, ChildSource(job, p), line, CandidatesOf(db, p.picks, job.origin.agent), p.admitted);
      GrewFrom(db.WithJob(row, after), written, r.value, Some(job.origin.root));
    }
  }

  lemma PrintedOrigin(job: Job, p: Printing)
    ensures Printed(job, p).origin == job.origin
  {
  }

  /** Inserting a result row is the only change of content, and only adds to it. */
  lemma InsertionEffect(db: Db, job: Job, p: Printing, after: Db)
    requires InsertContent(db, job, p).Some?
    requires after.posts == InsertContent(db, job, p).value.posts && after.replies == InsertContent(db, job, p).value.replies
    ensures Inserted(db, after, job, p) && SourcesGrow(db, after)
    ensures var stored := InsertContent(db, job, p).value;
            stored.jobs == db.jobs && stored.attempts == db.attempts && stored.settings == db.settings
  {
  }

  /** A publication either only replays, or did everything it promises at once. */
  lemma PublishEffect(db: Db, row: nat, version: int, p: Printing)
    requires db.Shaped()
    requires row < |db.jobs| ==> Rooted(db.jobs, row)
    ensures var r := PublishJob(db, row, version, p);
            r.Commit? ==>
              row < |db.jobs| &&
              (if db.jobs[row].status == JobSucceeded then r.db == db && r.result == db.jobs[row]
               else Published(db, r.db, row, version, p))
  {
    hide Print, Grew, Around, Inserted, PolicyAllows, ValidTransition, Job.Valid, TimeAllowed, SourceValid, Settings.Valid;
    var r := PublishJob(db, row, version, p);
    if r.Commit? && db.jobs[row].status != JobSucceeded {
      var s := StandingOf(db, db.jobs[row].origin).settings;
      PrintEffect(db, row, s, p);
    }
  }
}
