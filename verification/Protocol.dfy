/** Whole runs: the database, what really happened beside it, and every step any worker,
    human, operator or scheduler may take, in any interleaving. */
module Protocol {
  import opened Basics
  import opened Policies
  import opened Attempts
  import opened Jobs
  import opened Tables
  import opened Transactions
  import opened Operations
  import Schedule

  /** One admission of a call: the agent, the UTC day and the agent's budget in force. */
  datatype Grant = Grant(agent: Id, day: int, budget: int)

  datatype Publication = Publication(row: nat, number: int, output: Result, resultId: Id)

  /** What the tables do not record: whether a retry was committed since the last attempt of each row,
      the tokens each call really consumed, the admissions made and the publications made. */
  datatype History = History(
    acknowledged: seq<bool>, consumed: seq<seq<Option<int>>>, grants: seq<Grant>, publications: seq<Publication>)

  datatype World = World(db: Db, history: History)

  datatype Event =
    | DoClaim(row: nat, now: Instant, later: Instant)
    | DoRenew(row: nat, version: int, now: Instant)
    | DoReserve(row: nat, version: int, prompt: Option<nat>, at: Readings)
    | DoCall(row: nat, number: int, tokens: int)
    | DoSettle(reservation: Attempt, outcome: Outcome, requestId: Option<nat>, now: Instant)
    | DoRecover(row: nat, number: int, now: Instant)
    | DoComplete(row: nat, version: int, number: int, jitter: int, now: Instant)
    | DoDeny(row: nat, version: int, denial: Code, now: Instant)
    | DoRetry(row: nat, now: Instant)
    | DoPublish(row: nat, version: int, printing: Printing)
    | DoExpire(rows: seq<nat>, cutoff: Instant, now: Instant)
    | DoRemovePost(post: Id, rows: seq<nat>, now: Instant)
    | DoRemoveReply(reply: Id, rows: seq<nat>, now: Instant)
    | DoRemoveRepost(repost: Id, post: Id, rows: seq<nat>, now: Instant)
    | DoEnable(agents: seq<Id>, single: bool, enabled: bool, now: Instant)
    | DoSetPolicy(agent: Id, policy: Policy, now: Instant)
    | DoSchedule(agent: Id, now: Instant, draw: Schedule.Draw, uuid: nat)
    | DoAct(kind: Trigger, action: Id, actor: Id, target: Option<Id>, content: Content, written: Instant, picks: seq<Pick>, now: Instant)
    | DoContinue(row: nat, picks: seq<Pick>, now: Instant)

  function Kept<R>(db: Db, tx: Tx<R>): Db {
    match tx
    case Abort => db
    case Commit(after, _) => after
  }

  /** The database after an event; an aborted transaction leaves it as it was. */
  function DbAfter(db: Db, e: Event): Db
    requires db.Shaped()
  {
    match e
    case DoClaim(row, now, later) => Kept(db, Claim(db, row, now, later))
    case DoRenew(row, version, now) => Kept(db, Renew(db, row, version, now))
    case DoReserve(row, version, prompt, at) => Kept(db, Reserve(db, row, version, prompt, at))
    case DoCall(_, _, _) => db
    case DoSettle(reservation, outcome, requestId, now) => Kept(db, Settle(db, reservation, outcome, requestId, now))
    case DoRecover(row, number, now) => Kept(db, RecoverOne(db, row, number, now))
    case DoComplete(row, version, number, jitter, now) => Kept(db, Complete(db, row, version, number, jitter, now))
    case DoDeny(row, version, denial, now) => Kept(db, Deny(db, row, version, denial, now))
    case DoRetry(row, now) => Kept(db, Retry(db, row, now))
    case DoPublish(row, version, printing) => Kept(db, PublishJob(db, row, version, printing))
    case DoExpire(rows, cutoff, now) => Kept(db, Expire(db, rows, cutoff, now))
    case DoRemovePost(post, rows, now) => Kept(db, RemovePost(db, post, rows, now))
    case DoRemoveReply(reply, rows, now) => Kept(db, RemoveReply(db, reply, rows, now))
    case DoRemoveRepost(repost, post, rows, now) => Kept(db, RemoveRepost(db, repost, post, rows, now))
    case DoEnable(agents, single, enabled, now) => Kept(db, Enable(db, agents, single, enabled, now))
    case DoSetPolicy(agent, policy, now) => Kept(db, SetPolicy(db, agent, policy, now))
    case DoSchedule(agent, now, draw, uuid) => Kept(db, ScheduleAgent(db, agent, now, draw, uuid))
    case DoAct(kind, action, actor, target, content, written, picks, now) =>
      Kept(db, Act(db, kind, action, actor, target, content, written, picks, now))
    case DoContinue(row, picks, now) => Kept(db, Continue(db, row, picks, now))
  }

  /** History for rows the database gained. */
  function Grown(h: History, n: nat): History {
    if n < |h.acknowledged| || n < |h.consumed| then h
    else h.(acknowledged := h.acknowledged + seq(n - |h.acknowledged|, _ => false),
            consumed := h.consumed + seq(n - |h.consumed|, _ => []))
  }

  function Acknowledge(h: History, row: nat, bit: bool): History {
    if row < |h.acknowledged| then h.(acknowledged := h.acknowledged[row := bit]) else h
  }

  /** A fresh reservation: nothing consumed yet, nothing acknowledged, one more grant. */
  function Granting(h: History, row: nat, grant: Grant): History {
    if row < |h.consumed| then
      Acknowledge(h, row, false).(consumed := h.consumed[row := h.consumed[row] + [None]], grants := h.grants + [grant])
    else h
  }

  function Consuming(h: History, row: nat, number: int, tokens: int): History {
    if row < |h.consumed| && 1 <= number <= |h.consumed[row]| then
      h.(consumed := h.consumed[row := h.consumed[row][number - 1 := Some(tokens)]])
    else h
  }

  /** What happened beside the database: an event's trace in the history. */
  function HistoryAfter(w: World, e: Event): History
    requires w.db.Shaped()
  {
    var db, h := w.db, w.history;
    match e
    case DoReserve(row, version, prompt, at) =>
      (match Reserve(db, row, version, prompt, at)
       case Commit(after, admitted) =>
         if admitted.attempt.Some? && row < |db.jobs| && db.jobs[row].origin.agent in db.settings then
           var agent := db.jobs[row].origin.agent;
           Granting(h, row, Grant(agent, admitted.attempt.value.budgetDay, db.settings[agent].policy.dailyTokens))
         else h
       case Abort => h)
    case DoCall(row, number, tokens) => Consuming(h, row, number, tokens)
    case DoComplete(row, version, number, jitter, now) =>
      (match Complete(db, row, version, number, jitter, now)
       case Commit(after, status) =>
         if row < |db.jobs| && db.jobs[row].status == Running && status == RetryWait then Acknowledge(h, row, true) else h
       case Abort => h)
    case DoRetry(row, now) => if Retry(db, row, now).Commit? then Acknowledge(h, row, true) else h
    case DoPublish(row, version, p) =>
      if PublishJob(db, row, version, p).Commit? && row < |db.jobs| && db.jobs[row].status != JobSucceeded then
        Grown(h.(publications := h.publications + [Publication(row, p.number, p.output, p.resultId)]), |DbAfter(db, e).jobs|)
      else h
    case _ => Grown(h, |DbAfter(db, e).jobs|)
  }

  function Apply(w: World, e: Event): World
    requires w.db.Shaped()
  {
    World(DbAfter(w.db, e), HistoryAfter(w, e))
  }

  /** All that is assumed of the provider: a call consumes at most what was reserved for it, and the usage reported for it,
      if any, is what it really consumed. */
  ghost predicate Truthful(w: World, e: Event) {
    match e
    case DoCall(_, _, tokens) => 0 <= tokens <= RESERVED_TOKENS
    case DoSettle(reservation, outcome, _, _) =>
      outcome.input.Some? && outcome.output.Some? ==>
        && reservation.job < |w.history.consumed| && 1 <= reservation.number <= |w.history.consumed[reservation.job]|
        && w.history.consumed[reservation.job][reservation.number - 1] == Some(outcome.input.value + outcome.output.value)
    case _ => true
  }

  /** A reservation that was made and not called for yet. */
  ghost predicate Uncalled(w: World, row: nat, number: int) {
    row < |w.history.consumed| && 1 <= number <= |w.history.consumed[row]| && w.history.consumed[row][number - 1].None?
  }

  /** A truthful event that, if it is a call, is the first one for its reservation. */
  ghost predicate Honest(w: World, e: Event) {
    Truthful(w, e) && (e.DoCall? ==> Uncalled(w, e.row, e.number))
  }
}
