/** Every event of a run has one of seven shapes; invariants are proved against the shapes. */
module Changes {
  import opened Basics
  import opened Policies
  import opened Attempts
  import opened Jobs
  import opened Tables
  import opened Transactions
  import opened Operations
  import opened Protocol
  import opened Effects
  import opened Growth

  datatype Change =
    | Plain
    | Admitting(row: nat, attempt: Attempt)
    | Calling(row: nat, number: int, tokens: int)
    | Requeuing(row: nat)
    | Observing(row: nat, number: int)
    | Publishing(row: nat, version: int, printing: Printing)
    | Extending(root: Option<nat>)

  /** The rows of the history match the rows of the database. */
  ghost predicate Aligned(w: World) {
    w.db.Shaped() && |w.history.acknowledged| == |w.db.jobs| == |w.history.consumed|
  }

  ghost predicate RowAligned(w: World, row: nat)
    requires Aligned(w) && row < |w.db.jobs|
  {
    && |w.history.consumed[row]| == |w.db.attempts[row]| && Rooted(w.db.jobs, row)
    && (forall k :: 0 <= k < |w.db.attempts[row]| ==> w.db.attempts[row][k].Valid())
  }

  ghost predicate Explains(w: World, after: World, c: Change)
    requires w.db.Shaped()
  {
    var db, h := w.db, w.history;
    match c
    case Plain => Quiet(db, after.db) && after.history == h
    case Admitting(row, attempt) =>
      && row < |db.jobs| && ReservationFacts(db, row, attempt) && after.db == WithReservation(db, row, attempt)
      && var agent := db.jobs[row].origin.agent;
      && after.history == Granting(h, row, Grant(agent, attempt.budgetDay, db.settings[agent].policy.dailyTokens))
    case Calling(row, number, tokens) =>
      && after.db == db && after.history == Consuming(h, row, number, tokens)
      && row < |h.consumed| && 1 <= number <= |h.consumed[row]| && h.consumed[row][number - 1].None? && 0 <= tokens <= RESERVED_TOKENS
    case Requeuing(row) =>
      && row < |db.jobs| && row < |after.db.jobs| && RequeueFacts(db, row, after.db.jobs[row])
      && after.db == db.WithJob(row, after.db.jobs[row]) && after.history == Acknowledge(h, row, true)
    case Observing(row, number) => ObservedTruly(w, after, row, number) && after.history == h
    case Publishing(row, version, p) =>
      && row < |db.jobs| && Published(db, after.db, row, version, p)
      && after.history == Grown(h.(publications := h.publications + [Publication(row, p.number, p.output, p.resultId)]), |after.db.jobs|)
    case Extending(root) => Growing(db, after.db, root) && after.history == Grown(h, |after.db.jobs|)
  }

  /** The observed usage is what the call really consumed. */
  ghost predicate ObservedTruly(w: World, after: World, row: nat, number: int)
    requires w.db.Shaped()
  {
    && row < |after.db.attempts| && 1 <= number <= |after.db.attempts[row]|
    && var attempt := after.db.attempts[row][number - 1];
    && Observation(w.db, after.db, row, number, attempt.input, attempt.output)
    && (attempt.input.Some? ==>
          row < |w.history.consumed| && number <= |w.history.consumed[row]|
          && w.history.consumed[row][number - 1] == Some(attempt.input.value + attempt.output.value))
  }

  /** A completion or an operator retry that requeued the row. */
  ghost predicate RetryCommitted(w: World, e: Event, row: nat)
    requires w.db.Shaped() && row < |w.db.jobs|
  {
    || (e.DoRetry? && e.row == row && Retry(w.db, row, e.now).Commit?)
    || (e.DoComplete? && e.row == row && w.db.jobs[row].status == Running
        && var r := Complete(w.db, row, e.version, e.number, e.jitter, e.now);
        r.Commit? && r.result == RetryWait)
  }

  /** Which events can cause which changes. */
  ghost predicate Causes(w: World, e: Event, c: Change)
    requires w.db.Shaped()
  {
    match c
    case Plain => !e.DoCall?
    case Admitting(row, _) => e.DoReserve? && e.row == row
    case Calling(row, number, tokens) => e == DoCall(row, number, tokens)
    case Requeuing(row) => row < |w.db.jobs| && !e.DoCall? && RetryCommitted(w, e, row)
    case Observing(row, number) =>
      if e.DoSettle? then e.reservation.job == row && e.reservation.number == number
      else e.DoRecover? && e.row == row && e.number == number
    case Publishing(row, version, p) => e == DoPublish(row, version, p)
    case Extending(_) => e.DoSchedule? || e.DoAct? || e.DoContinue?
  }

  lemma QuietKeepsHistory(w: World, e: Event)
    requires Aligned(w) && Quiet(w.db, DbAfter(w.db, e))
    ensures Grown(w.history, |DbAfter(w.db, e).jobs|) == w.history
  {
    var h := w.history;
    assert h.acknowledged + seq(0, _ => false) == h.acknowledged;
    assert h.consumed + seq(0, _ => []) == h.consumed;
  }

  predicate IsQuiet(e: Event) {
    e.DoClaim? || e.DoRenew? || e.DoDeny? || e.DoExpire? || e.DoRemovePost? || e.DoRemoveReply? || e.DoRemoveRepost?
    || e.DoEnable? || e.DoSetPolicy?
  }

  /** Claims, renewals, denials, endings, removals and controls are quiet. */
  lemma QuietEvent(db: Db, e: Event)
    requires db.Shaped() && IsQuiet(e)
    ensures Quiet(db, DbAfter(db, e))
  {
    hide Quiet, Claim, Renew, Deny, Expire, RemovePost, RemoveReply, RemoveRepost, Enable, SetPolicy;
    match e
    case DoClaim(row, now, later) => ClaimQuiet(db, row, now, later);
    case DoRenew(row, version, now) => RenewQuiet(db, row, version, now);
    case DoDeny(row, version, denial, now) => DenyQuiet(db, row, version, denial, now);
    case DoExpire(rows, cutoff, now) => ExpireQuiet(db, rows, cutoff, now);
    case DoRemovePost(post, rows, now) => RemovePostQuiet(db, post, rows, now);
    case DoRemoveReply(reply, rows, now) => RemoveReplyQuiet(db, reply, rows, now);
    case DoRemoveRepost(repost, post, rows, now) => RemoveRepostQuiet(db, repost, post, rows, now);
    case DoEnable(agents, single, enabled, now) => EnableQuiet(db, agents, single, enabled, now);
    case DoSetPolicy(agent, policy, now) => SetPolicyQuiet(db, agent, policy, now);
  }

  lemma ExplainQuiet(w: World, e: Event)
    requires Aligned(w) && IsQuiet(e)
    ensures Explains(w, Apply(w, e), Plain)
  {
    hide Quiet, DbAfter, Grown;
    QuietEvent(w.db, e);
    QuietKeepsHistory(w, e);
  }

  lemma ExplainReserve(w: World, e: Event) returns (c: Change)
    requires Aligned(w) && e.DoReserve?
    ensures Explains(w, Apply(w, e), c) && Causes(w, e, c)
  {
    hide Quiet, Reserve, ReservationFacts, Granting;
    ReserveEffect(w.db, e.row, e.version, e.prompt, e.at);
    QuietRefl(w.db);
    c := Plain;
    var r := Reserve(w.db, e.row, e.version, e.prompt, e.at);
    if r.Commit? && r.result.attempt.Some? {
      c := Admitting(e.row, r.result.attempt.value);
      AdmittedAgent(w.db, e.row, r.result.attempt.value);
    }
  }

  lemma AdmittedAgent(db: Db, row: nat, attempt: Attempt)
    requires db.Shaped() && row < |db.jobs| && ReservationFacts(db, row, attempt)
    ensures db.jobs[row].origin.agent in db.settings
  {
    hide Attempt.Valid, Settings.Valid, Charge, SourceValid, InvalidOutputs;
  }

  lemma ExplainRequeue(w: World, e: Event) returns (c: Change)
    requires Aligned(w) && (e.DoComplete? || e.DoRetry?)
    requires e.row < |w.db.jobs| ==> RowAligned(w, e.row)
    ensures Explains(w, Apply(w, e), c) && Causes(w, e, c)
  {
    hide Quiet, Complete, Retry, RequeueFacts, Attempt.Valid;
    QuietRefl(w.db);
    c := Plain;
    if e.DoComplete? {
      CompleteEffect(w.db, e.row, e.version, e.number, e.jitter, e.now);
      var r := Complete(w.db, e.row, e.version, e.number, e.jitter, e.now);
      if r.Commit? && w.db.jobs[e.row].status == Running && r.result == RetryWait {
        c := Requeuing(e.row);
      }
    } else {
      RetryEffect(w.db, e.row, e.now);
      if Retry(w.db, e.row, e.now).Commit? {
        c := Requeuing(e.row);
      }
    }
  }

  lemma ExplainObservation(w: World, e: Event) returns (c: Change)
    requires Aligned(w) && (e.DoSettle? || e.DoRecover?) && Honest(w, e)
    ensures Explains(w, Apply(w, e), c) && Causes(w, e, c)
  {
    hide Quiet, Settle, RecoverOne, Observation;
    QuietRefl(w.db);
    c := Plain;
    if e.DoSettle? {
      SettleEffect(w.db, e.reservation, e.outcome, e.requestId, e.now);
      var r := Settle(w.db, e.reservation, e.outcome, e.requestId, e.now);
      if r.Commit? && r.db != w.db {
        TrueUsage(w, Apply(w, e), e.reservation.job, e.reservation.number, e.outcome.input, e.outcome.output);
        c := Observing(e.reservation.job, e.reservation.number);
      }
    } else {
      RecoverEffect(w.db, e.row, e.number, e.now);
      var r := RecoverOne(w.db, e.row, e.number, e.now);
      if r.Commit? && r.db != w.db {
        TrueUsage(w, Apply(w, e), e.row, e.number, None, None);
        c := Observing(e.row, e.number);
      }
    }
    if c.Plain? {
      QuietKeepsHistory(w, e);
    } else {
      SameSize(w, Apply(w, e), c.row, c.number);
      GrownRefl(w);
    }
  }

  lemma GrownRefl(w: World)
    requires Aligned(w)
    ensures Grown(w.history, |w.db.jobs|) == w.history
  {
    assert w.history.acknowledged + seq(0, _ => false) == w.history.acknowledged;
    assert w.history.consumed + seq(0, _ => []) == w.history.consumed;
  }

  lemma SameSize(w: World, after: World, row: nat, number: int)
    requires w.db.Shaped() && ObservedTruly(w, after, row, number)
    ensures |after.db.jobs| == |w.db.jobs|
  {
    hide ValidAttemptTransition;
  }

  lemma TrueUsage(w: World, after: World, row: nat, number: int, input: Option<int>, output: Option<int>)
    requires w.db.Shaped() && Observation(w.db, after.db, row, number, input, output)
    requires input.Some? && output.Some? ==>
               && row < |w.history.consumed| && number <= |w.history.consumed[row]|
               && w.history.consumed[row][number - 1] == Some(input.value + output.value)
    ensures ObservedTruly(w, after, row, number)
  {
  }

  lemma ExplainGrowth(w: World, e: Event) returns (c: Change)
    requires Aligned(w) && (e.DoSchedule? || e.DoAct? || e.DoContinue?)
    requires e.DoContinue? && e.row < |w.db.jobs| ==> RowAligned(w, e.row)
    ensures c.Extending?
    ensures Explains(w, Apply(w, e), c) && Causes(w, e, c)
  {
    hide Growing, ScheduleAgent, Act, Continue, Grown;
    GrowingRefl(w.db, None);
    c := Extending(None);
    match e
    case DoSchedule(agent, now, draw, uuid) => ScheduleGrows(w.db, agent, now, draw, uuid);
    case DoAct(kind, action, actor, target, content, written, picks, now) =>
      ActGrows(w.db, kind, action, actor, target, content, written, picks, now);
    case DoContinue(row, picks, now) =>
      ContinueGrows(w.db, row, picks, now);
      if Continue(w.db, row, picks, now).Commit? {
        c := Extending(Some(w.db.jobs[row].origin.root));
      }
  }

  lemma ExplainPublish(w: World, e: Event) returns (c: Change)
    requires Aligned(w) && e.DoPublish?
    requires e.row < |w.db.jobs| ==> RowAligned(w, e.row)
    ensures Explains(w, Apply(w, e), c) && Causes(w, e, c)
  {
    hide Quiet, PublishJob, Published, Grown;
    PublishEffect(w.db, e.row, e.version, e.printing);
    QuietRefl(w.db);
    c := if PublishJob(w.db, e.row, e.version, e.printing).Commit? && w.db.jobs[e.row].status != JobSucceeded
         then Publishing(e.row, e.version, e.printing) else Plain;
  }

  /** Whatever happens next, in any interleaving, is one of the seven changes. */
  lemma Explained(w: World, e: Event) returns (c: Change)
    requires Aligned(w) && Honest(w, e)
    requires forall row: nat :: row < |w.db.jobs| ==> RowAligned(w, row)
    ensures Explains(w, Apply(w, e), c) && Causes(w, e, c)
  {
    hide Explains, Apply, RetryCommitted;
    match e
    case DoReserve(_, _, _, _) => c := ExplainReserve(w, e);
    case DoCall(row, number, tokens) => c := Calling(row, number, tokens); ExplainCall(w, e);
    case DoSettle(_, _, _, _) => c := ExplainObservation(w, e);
    case DoRecover(_, _, _) => c := ExplainObservation(w, e);
    case DoComplete(_, _, _, _, _) => c := ExplainRequeue(w, e);
    case DoRetry(_, _) => c := ExplainRequeue(w, e);
    case DoPublish(_, _, _) => c := ExplainPublish(w, e);
    case DoSchedule(_, _, _, _) => c := ExplainGrowth(w, e);
    case DoAct(_, _, _, _, _, _, _, _) => c := ExplainGrowth(w, e);
    case DoContinue(_, _, _) => c := ExplainGrowth(w, e);
    case _ => c := Plain; ExplainQuiet(w, e);
  }

  lemma ExplainCall(w: World, e: Event)
    requires Aligned(w) && e.DoCall? && Honest(w, e)
    ensures Explains(w, Apply(w, e), Calling(e.row, e.number, e.tokens))
  {
  }
}
