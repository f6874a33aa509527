/** Whole runs of the protocol act on one agent's settings row as runs of its schedule. */
module Calendar {
  import opened Basics
  import opened Policies
  import opened Tables
  import opened Operations
  import opened Protocol
  import opened Invariants
  import Frames
  import Schedule

  /** What an event is to one agent's schedule. */
  function Seen(db: Db, e: Event, agent: Id): Schedule.Event
    requires db.Shaped() && agent in db.settings
  {
    match e
    case DoSchedule(a, now, draw, uuid) =>
      if a == agent && Advanced(db, e) then Schedule.Tick(now, draw) else Unseen(db, e, agent)
    case DoSetPolicy(a, policy, now) =>
      if a == agent && SetPolicy(db, a, policy, now).Commit? then Schedule.Edit(policy, now) else Unseen(db, e, agent)
    case _ => Unseen(db, e, agent)
  }

  function Unseen(db: Db, e: Event, agent: Id): Schedule.Event
    requires db.Shaped() && agent in db.settings
  {
    Schedule.Rest(if agent in DbAfter(db, e).settings then DbAfter(db, e).settings[agent] else db.settings[agent])
  }

  /** A pass over an enabled, valid row whose clock has not gone back behind its date. */
  predicate Advanced(db: Db, e: Event)
    requires e.DoSchedule?
  {
    e.agent in db.settings
    && var s := db.settings[e.agent];
    && var r := ScheduleAgent(db, e.agent, e.now, e.draw, e.uuid);
    && r.Commit? && r.result != Ignored && r.result != Visit.Invalid && s.Valid() && Schedule.Active(s, e.now)
  }

  predicate Enqueues(db: Db, e: Event, agent: Id) {
    e.DoSchedule? && e.agent == agent
    && var r := ScheduleAgent(db, agent, e.now, e.draw, e.uuid);
    r.Commit? && r.result == Enqueued
  }

  lemma PassSeen(db: Db, e: Event, agent: Id)
    requires db.Shaped() && e.DoSchedule? && agent in db.settings
    ensures agent in DbAfter(db, e).settings
    ensures DbAfter(db, e).settings[agent] == Schedule.Next(db.settings[agent], Seen(db, e, agent))
    ensures Enqueues(db, e, agent) ==>
              Seen(db, e, agent) == Schedule.Tick(e.now, e.draw)
              && Schedule.Advance(db.settings[agent], e.now, e.draw).Some?
              && Schedule.Advance(db.settings[agent], e.now, e.draw).value.due.Some?
  {
    hide DbAfter, Settings.Valid, Eligibility.Members, SlotDay, Admission.Taken, Jobs.Job.Valid, SlotJob, Schedule.Advance, Schedule.Active,
         Schedule.ChangePolicy;
    Frames.WorkDb(db, e);
    if e.agent in db.settings && Schedule.Advance(db.settings[e.agent], e.now, e.draw).Some? {
      OnlySlots(db.settings[e.agent], e.now, e.draw);
    }
  }

  /** A pass changes nothing but the slots and the inspection time, and on an earlier date nothing at all. */
  lemma OnlySlots(s: Settings, now: Instant, draw: Schedule.Draw)
    requires Schedule.Advance(s, now, draw).Some?
    ensures s.Valid()
    ensures var r := Schedule.Advance(s, now, draw).value;
            if Schedule.Active(s, now) then
              r.settings == s.(nextPostAt := r.settings.nextPostAt, scheduleDate := r.settings.scheduleDate,
                               remaining := r.settings.remaining, updatedAt := now)
            else r.settings == s && r.due.None?
  {
    hide Policy.Valid, Schedule.Sample, Schedule.Elapse, Policy.Window, Zones.Zone.Date;
  }

  /** Every event is, to an agent's row, exactly one event of its schedule; and only a pass that found a due slot enqueues. */
  lemma EventSeen(db: Db, e: Event, agent: Id)
    requires db.Shaped() && agent in db.settings
    ensures agent in DbAfter(db, e).settings
    ensures DbAfter(db, e).settings[agent] == Schedule.Next(db.settings[agent], Seen(db, e, agent))
    ensures Enqueues(db, e, agent) ==>
              Seen(db, e, agent) == Schedule.Tick(e.now, e.draw)
              && Schedule.Advance(db.settings[agent], e.now, e.draw).Some?
              && Schedule.Advance(db.settings[agent], e.now, e.draw).value.due.Some?
  {
    hide DbAfter, Seen, Enqueues, Schedule.Next;
    if e.DoSchedule? {
      PassSeen(db, e, agent);
    } else if e.DoSetPolicy? {
      EditSeen(db, e, agent);
    } else {
      Frames.SchedulesSame(db, e);
      RestSeen(db, e, agent);
    }
  }

  lemma EditSeen(db: Db, e: Event, agent: Id)
    requires db.Shaped() && e.DoSetPolicy? && agent in db.settings
    ensures agent in DbAfter(db, e).settings && !Enqueues(db, e, agent)
    ensures DbAfter(db, e).settings[agent] == Schedule.Next(db.settings[agent], Seen(db, e, agent))
  {
    hide Settings.Valid, Policy.Valid, Schedule.ChangePolicy;
  }

  lemma RestSeen(db: Db, e: Event, agent: Id)
    requires db.Shaped() && !e.DoSchedule? && !e.DoSetPolicy? && agent in db.settings && Frames.Calm(db, DbAfter(db, e))
    ensures agent in DbAfter(db, e).settings && !Enqueues(db, e, agent)
    ensures DbAfter(db, e).settings[agent] == Schedule.Next(db.settings[agent], Seen(db, e, agent))
  {
    hide DbAfter, Schedule.Advance, Schedule.ChangePolicy, Settings.Valid;
  }

  // ---- Runs ----

  /** A run as one agent's schedule sees it. */
  ghost function SeenRun(w: World, events: seq<Event>, agent: Id): seq<Schedule.Event>
    requires Inv(w) && HonestRun(w, events) && agent in w.db.settings
    decreases |events|
  {
    if events == [] then []
    else
      EventSeen(w.db, events[0], agent);
      Step(w, events[0]);
      [Seen(w.db, events[0], agent)] + SeenRun(Apply(w, events[0]), events[1..], agent)
  }

  /** Jobs a run enqueues for an agent's slots of a local date. */
  ghost function EnqueuedOn(w: World, events: seq<Event>, agent: Id, date: int): nat
    requires Inv(w) && HonestRun(w, events) && agent in w.db.settings
    decreases |events|
  {
    if events == [] then 0
    else
      EventSeen(w.db, events[0], agent);
      Step(w, events[0]);
      var next := Apply(w, events[0]);
      (if Enqueues(w.db, events[0], agent) && next.db.settings[agent].scheduleDate == Some(date) then 1 else 0)
      + EnqueuedOn(next, events[1..], agent, date)
  }

  lemma {:induction false} RunSeen(w: World, events: seq<Event>, agent: Id, date: int)
    requires Inv(w) && HonestRun(w, events) && agent in w.db.settings
    ensures agent in Run(w, events).db.settings
    ensures Run(w, events).db.settings[agent] == Schedule.Play(w.db.settings[agent], SeenRun(w, events, agent))
    ensures EnqueuedOn(w, events, agent, date) <= Schedule.Dues(w.db.settings[agent], SeenRun(w, events, agent), date)
    decreases |events|
  {
    hide RowSound, Chains.Chained, DbAfter, HistoryAfter, Honest, Seen, Enqueues, Schedule.Next, Schedule.Advance;
    if events != [] {
      EventSeen(w.db, events[0], agent);
      Step(w, events[0]);
      RunSeen(Apply(w, events[0]), events[1..], agent, date);
      var seen := SeenRun(w, events, agent);
      assert seen[0] == Seen(w.db, events[0], agent) && seen[1..] == SeenRun(Apply(w, events[0]), events[1..], agent);
    }
  }

  /** Over any run of the protocol an agent's schedule date never moves back, each local date is drawn at most once, and the jobs
      enqueued for a date's slots are at most the maximum in force when it was drawn. */
  lemma CalendarBounds(w: World, events: seq<Event>, agent: Id, date: int)
    requires Inv(w) && HonestRun(w, events) && agent in w.db.settings
    ensures agent in Run(w, events).db.settings
    ensures var s, seen := w.db.settings[agent], SeenRun(w, events, agent);
            && Schedule.Reached(s.scheduleDate, Run(w, events).db.settings[agent].scheduleDate)
            && |Schedule.Drawings(s, seen, date)| <= 1
            && (Schedule.Reached(Some(date), s.scheduleDate) ==> Schedule.Drawings(s, seen, date) == [])
            && EnqueuedOn(w, events, agent, date)
               <= if Schedule.Drawings(s, seen, date) != [] then Schedule.Drawings(s, seen, date)[0]
                  else if s.scheduleDate == Some(date) then Max(s.remaining, 0) else 0
  {
    hide RowSound, Chains.Chained, Run, HonestRun, SeenRun, EnqueuedOn, Schedule.Play, Schedule.Drawings, Schedule.Dues;
    RunSeen(w, events, agent, date);
    Schedule.RunBounds(w.db.settings[agent], SeenRun(w, events, agent), date);
  }
}
