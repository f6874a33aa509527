/** When a scheduling pass finds a slot due, what it enqueues for it, and how long that keeps its place. */
module Slots {
  import opened Basics
  import opened Zones
  import opened Policies
  import opened Jobs
  import opened Attempts
  import opened Tables
  import opened Operations
  import Admission
  import Eligibility
  import Recheck
  import Selection
  import S = Schedule

  // ---- Sampling ----

  /** As many slots are kept as fit at full spacing, and no fewer. */
  lemma SampleKeepsAll(s: Settings, lower: Instant, end: Instant, draw: S.Draw, used: nat)
    requires s.policy.minSpacing >= 1 && s.remaining >= 0 && S.Sample(s, lower, end, draw, used).Some?
    ensures var r := S.Sample(s, lower, end, draw, used).value.settings;
            && (s.remaining == 0 || end <= lower ==> r.remaining == 0)
            && (s.remaining > 0 && lower < end ==> 1 <= r.remaining)
            && (r.remaining < s.remaining && lower < end ==> lower + r.remaining * (s.policy.minSpacing * 1_000_000) >= end)
  {
    if lower < end && s.remaining > 0 {
      var spacing := s.policy.Spacing();
      var n := end - lower - 1;
      assert n == (n / spacing) * spacing + n % spacing;
    }
  }

  /** Every instant from which the remaining slots still fit can be drawn. */
  lemma SampleReaches(s: Settings, lower: Instant, end: Instant, at: Instant, used: nat)
    requires s.policy.minSpacing >= 1 && s.remaining >= 1 && lower <= at
    requires lower + (s.remaining - 1) * (s.policy.minSpacing * 1_000_000) < end
    requires at + (s.remaining - 1) * (s.policy.minSpacing * 1_000_000) < end
    ensures var draw: S.Draw := (k, n) => at - lower;
            && S.Sample(s, lower, end, draw, used).Some?
            && S.Sample(s, lower, end, draw, used).value.settings == s.(nextPostAt := Some(at))
  {
    var spacing := s.policy.Spacing();
    StillFits(end - lower - 1, spacing, s.remaining - 1);
  }

  lemma StillFits(length: int, spacing: int, count: int)
    requires spacing > 0 && count >= 0 && count * spacing <= length
    ensures count <= length / spacing
  {
    assert length == (length / spacing) * spacing + length % spacing;
    if length / spacing < count {
      ScaleOrder(length / spacing + 1, count, spacing);
    }
  }

  // ---- Elapsed slots ----

  /** The slots a pass consumes: the next one, if its time has come, and then those sampled after it, a spacing later each. */
  ghost function Consumed(s: Settings, day: S.Day, draw: S.Draw, used: nat): seq<Instant>
    requires s.policy.minSpacing >= 1 && s.remaining >= 0 && (s.nextPostAt.Some? ==> s.remaining > 0)
    decreases s.remaining
  {
    if s.nextPostAt.None? || day.now < s.nextPostAt.value then []
    else
      var at := s.nextPostAt.value;
      [at] + match S.Sample(s.(remaining := s.remaining - 1), at + s.policy.minSpacing * 1_000_000, day.end, draw, used)
             case None => []
             case Some(next) => Consumed(next.settings, day, draw, next.used)
  }

  /** Still worth posting for: at or after the bounds, while the window is open, and not too old. */
  predicate FreshIn(p: Policy, day: S.Day, at: Instant) {
    day.lower <= at && day.start <= day.now < day.end && day.now < at + p.sourceMaxAge * 1_000_000
  }

  /** Consumed slots have come, one spacing apart at least. */
  lemma {:induction false} ConsumedInOrder(s: Settings, day: S.Day, draw: S.Draw, used: nat)
    requires s.policy.minSpacing >= 1 && s.remaining >= 0 && (s.nextPostAt.Some? ==> s.remaining > 0)
    ensures var c := Consumed(s, day, draw, used);
            && |c| <= s.remaining
            && (c != [] ==> s.nextPostAt == Some(c[0]))
            && (forall i :: 0 <= i < |c| ==> c[i] <= day.now)
            && (forall i, j :: 0 <= i < j < |c| ==> c[j] >= c[i] + s.policy.minSpacing * 1_000_000)
    decreases s.remaining
  {
    hide S.Sample;
    if s.nextPostAt.Some? && s.nextPostAt.value <= day.now {
      var next := S.Sample(s.(remaining := s.remaining - 1), s.nextPostAt.value + s.policy.minSpacing * 1_000_000, day.end, draw, used);
      if next.Some? {
        ConsumedInOrder(next.value.settings, day, draw, next.value.used);
        var rest := Consumed(next.value.settings, day, draw, next.value.used);
        var c := Consumed(s, day, draw, used);
        assert forall j :: 0 < j < |c| ==> c[j] == rest[j - 1] && c[j] >= rest[0];
      }
    }
  }

  /** The slot reported is the latest of the consumed ones that is fresh, and there is one exactly when some consumed slot is. */
  ghost predicate Reports(p: Policy, day: S.Day, c: seq<Instant>, before: Option<S.Slot>, due: Option<S.Slot>) {
    if forall i :: 0 <= i < |c| ==> !FreshIn(p, day, c[i]) then due == before
    else exists i :: 0 <= i < |c| && FreshIn(p, day, c[i]) && due == Some(S.Slot(c[i], c[i] + p.sourceMaxAge * 1_000_000))
                     && forall j :: i < j < |c| ==> !FreshIn(p, day, c[j])
  }

  lemma {:induction false} ElapseReports(s: Settings, day: S.Day, due: Option<S.Slot>, draw: S.Draw, used: nat)
    requires s.policy.minSpacing >= 1 && s.remaining >= 0 && (s.nextPostAt.Some? ==> s.remaining > 0)
    requires S.Elapse(s, day, due, draw, used).Some?
    ensures Reports(s.policy, day, Consumed(s, day, draw, used), due, S.Elapse(s, day, due, draw, used).value.due)
    decreases s.remaining
  {
    hide S.Sample, FreshIn;
    var c := Consumed(s, day, draw, used);
    if s.nextPostAt.Some? && s.nextPostAt.value <= day.now {
      var at := s.nextPostAt.value;
      var next := S.Sample(s.(remaining := s.remaining - 1), at + s.policy.Spacing(), day.end, draw, used).value;
      var noted := S.SlotAt(s, at, day, due);
      Noted(s, at, day, due);
      ElapseReports(next.settings, day, noted, draw, next.used);
      ReportsOneMore(s.policy, day, at, Consumed(next.settings, day, draw, next.used), due, noted, S.Elapse(s, day, due, draw, used).value.due);
    }
  }

  lemma Noted(s: Settings, at: Instant, day: S.Day, due: Option<S.Slot>)
    ensures S.SlotAt(s, at, day, due) == if FreshIn(s.policy, day, at) then Some(S.Slot(at, at + s.policy.sourceMaxAge * 1_000_000)) else due
  {
  }

  lemma ReportsOneMore(p: Policy, day: S.Day, at: Instant, rest: seq<Instant>, before: Option<S.Slot>, noted: Option<S.Slot>, due: Option<S.Slot>)
    requires noted == if FreshIn(p, day, at) then Some(S.Slot(at, at + p.sourceMaxAge * 1_000_000)) else before
    requires Reports(p, day, rest, noted, due)
    ensures Reports(p, day, [at] + rest, before, due)
  {
    hide FreshIn;
    var c := [at] + rest;
    if forall i :: 0 <= i < |rest| ==> !FreshIn(p, day, rest[i]) {
      assert c[0] == at;
      assert forall i :: 0 < i < |c| ==> c[i] == rest[i - 1];
    } else {
      var i :| 0 <= i < |rest| && FreshIn(p, day, rest[i]) && due == Some(S.Slot(rest[i], rest[i] + p.sourceMaxAge * 1_000_000))
               && forall j :: i < j < |rest| ==> !FreshIn(p, day, rest[j]);
      assert c[i + 1] == rest[i];
      assert forall j :: i + 1 < j < |c| ==> c[j] == rest[j - 1];
    }
  }

  // ---- One pass ----

  /** A pass looks at the row: it is switched on, and the clock has not gone back behind the date already sampled. */
  predicate Looks(s: Settings, now: Instant) {
    s.Valid() && now != 0 && s.enabled && (s.scheduleDate.Some? ==> s.scheduleDate.value <= s.policy.zone.Date(now))
  }

  /** Fresh at a pass: in the window of today, a spacing after the last publication, and not too old. */
  predicate FreshAt(s: Settings, now: Instant, at: Instant)
    requires s.policy.zone.Valid()
  {
    var window := s.policy.Window(s.policy.zone.Date(now));
    && window.0 <= at && window.0 <= now < window.1 && now < at + s.policy.sourceMaxAge * 1_000_000
    && (s.lastPublishedAt.Some? ==> at >= s.lastPublishedAt.value + s.policy.minSpacing * 1_000_000)
  }

  lemma FreshExactly(s: Settings, now: Instant, at: Instant)
    requires s.policy.zone.Valid()
    ensures FreshIn(s.policy, S.DayOf(s, now), at) <==> FreshAt(s, now, at)
  {
    hide Policy.Window, Zone.Date;
  }

  /** Today's slots as a pass finds them: the saved ones, or those of a date it begins. */
  ghost function TodaysSlots(s: Settings, now: Instant, draw: S.Draw): Option<S.Sampled>
    requires s.Valid()
  {
    if s.scheduleDate == Some(s.policy.zone.Date(now)) then Some(S.Sampled(s, 0))
    else S.Begin(s, s.policy.zone.Date(now), S.DayOf(s, now), draw)
  }

  /** A date begins with a count between the policy's bounds, as far as the slots fit, and not before the present. */
  lemma BeginsWithin(s: Settings, now: Instant, draw: S.Draw)
    requires s.Valid() && S.Begin(s, s.policy.zone.Date(now), S.DayOf(s, now), draw).Some?
    ensures var p, r := s.policy, S.Begin(s, s.policy.zone.Date(now), S.DayOf(s, now), draw).value.settings;
            var from, end := Max(S.DayOf(s, now).lower, now), p.Window(p.zone.Date(now)).1;
            && r.scheduleDate == Some(p.zone.Date(now)) && 0 <= r.remaining <= p.scheduledMax
            && (r.nextPostAt.Some? <==> r.remaining > 0)
            && (r.nextPostAt.Some? ==> from <= r.nextPostAt.value && r.nextPostAt.value + (r.remaining - 1) * (p.minSpacing * 1_000_000) < end)
            && (from < end ==> r.remaining >= p.scheduledMin || from + r.remaining * (p.minSpacing * 1_000_000) >= end)
  {
    hide S.Sample, Policy.Valid, Policy.Window, Zone.Date, Zone.Valid;
    SpacedPolicy(s);
    var day := S.DayOf(s, now);
    var count := S.DrawBelow(draw, 0, s.policy.scheduledMax - s.policy.scheduledMin + 1).value;
    var dated := s.(scheduleDate := Some(s.policy.zone.Date(now)), remaining := s.policy.scheduledMin + count.0, nextPostAt := None);
    SampleKeepsAll(dated, Max(day.lower, day.now), day.end, draw, count.1);
  }

  lemma SpacedPolicy(s: Settings)
    requires s.Valid()
    ensures s.policy.minSpacing >= 1 && s.policy.zone.Valid() && s.remaining >= 0 && (s.nextPostAt.Some? ==> s.remaining > 0)
    ensures s.agent != 0 && 0 <= s.policy.scheduledMin <= s.policy.scheduledMax && s.policy.sourceMaxAge >= 0
  {
    hide Zone.Valid;
  }

  ghost function Elapsed(s: Settings, now: Instant, draw: S.Draw): seq<Instant>
    requires s.Valid()
  {
    match TodaysSlots(s, now, draw)
    case None => []
    case Some(today) => Consumed(today.settings, S.DayOf(s, now), draw, today.used)
  }

  /** Of the slots that came, the latest fresh one is due, and one is due exactly when one of them is fresh. */
  ghost predicate LatestFresh(s: Settings, now: Instant, c: seq<Instant>, due: Option<S.Slot>)
    requires s.policy.zone.Valid()
  {
    && (due.Some? <==> exists at :: at in c && FreshAt(s, now, at))
    && (due.Some? ==>
          && due.value.at in c && FreshAt(s, now, due.value.at) && due.value.expiresAt == due.value.at + s.policy.sourceMaxAge * 1_000_000
          && forall at :: at in c && FreshAt(s, now, at) ==> at <= due.value.at)
  }

  /** A pass that succeeds reports the latest of the elapsed slots that is still fresh, and none when none is. */
  lemma PassReports(s: Settings, now: Instant, draw: S.Draw)
    requires Looks(s, now) && S.Advance(s, now, draw).Some?
    ensures LatestFresh(s, now, Elapsed(s, now, draw), S.Advance(s, now, draw).value.due)
  {
    hide S.Sample, S.Begin, S.Elapse, Policy.Valid, Policy.Window, Zone.Date, Zone.Valid, FreshIn, FreshAt, Reports, LatestFresh, Consumed;
    SpacedPolicy(s);
    var today := TodaysSlots(s, now, draw).value;
    TodayFacts(s, now, draw);
    var day := S.DayOf(s, now);
    ElapseReports(today.settings, day, None, draw, today.used);
    ConsumedInOrder(today.settings, day, draw, today.used);
    LatestOf(s, now, Consumed(today.settings, day, draw, today.used), S.Advance(s, now, draw).value.due);
  }

  lemma TodayFacts(s: Settings, now: Instant, draw: S.Draw)
    requires s.Valid() && TodaysSlots(s, now, draw).Some?
    ensures var today := TodaysSlots(s, now, draw).value.settings;
            && today.policy == s.policy && today.policy.minSpacing >= 1 && today.remaining >= 0
            && (today.nextPostAt.Some? ==> today.remaining > 0)
  {
    hide S.Sample, Policy.Valid, Policy.Window, Zone.Date, Zone.Valid;
    SpacedPolicy(s);
  }

  lemma LatestOf(s: Settings, now: Instant, c: seq<Instant>, due: Option<S.Slot>)
    requires s.policy.zone.Valid() && s.policy.minSpacing >= 0 && Reports(s.policy, S.DayOf(s, now), c, None, due)
    requires forall i, j :: 0 <= i < j < |c| ==> c[j] >= c[i] + s.policy.minSpacing * 1_000_000
    ensures LatestFresh(s, now, c, due)
  {
    hide FreshIn, FreshAt, Policy.Window, Zone.Date, S.DayOf;
    forall at ensures FreshIn(s.policy, S.DayOf(s, now), at) <==> FreshAt(s, now, at) {
      FreshExactly(s, now, at);
    }
  }

  /** The saved slot of today is reported, or a later one, whenever its time has come and it is fresh; and a pass that finds nothing
      fresh reports nothing. */
  lemma SavedSlotFound(s: Settings, now: Instant, draw: S.Draw)
    requires Looks(s, now) && S.Advance(s, now, draw).Some?
    requires s.scheduleDate == Some(s.policy.zone.Date(now)) && s.nextPostAt.Some? && s.nextPostAt.value <= now
    requires s.policy.zone.Valid() && FreshAt(s, now, s.nextPostAt.value)
    ensures var due := S.Advance(s, now, draw).value.due; due.Some? && s.nextPostAt.value <= due.value.at <= now
  {
    hide S.Sample, S.Advance, Policy.Valid, Policy.Window, Zone.Date, Zone.Valid, FreshAt;
    SpacedPolicy(s);
    PassReports(s, now, draw);
    ConsumedInOrder(s, S.DayOf(s, now), draw, 0);
    assert Elapsed(s, now, draw)[0] == s.nextPostAt.value;
  }

  /** A pass before the saved slot of today leaves the schedule as it is, draws nothing and reports nothing. */
  lemma EarlyPassKeeps(s: Settings, now: Instant, draw: S.Draw)
    requires Looks(s, now) && s.scheduleDate == Some(s.policy.zone.Date(now)) && (s.remaining > 0 ==> s.nextPostAt.Some?)
    requires s.nextPostAt.Some? ==> now < s.nextPostAt.value
    ensures S.Advance(s, now, draw) == Some(S.Advanced(s.(updatedAt := now), None, 0))
  {
    hide S.Sample, Policy.Valid, Policy.Window, Zone.Date;
  }

  /** After a due slot the next one is drawn again only when it is closer than a spacing, and then not before that. */
  lemma NextSlotKept(e: S.Advanced, day: S.Day, draw: S.Draw)
    requires e.settings.policy.minSpacing >= 1 && e.settings.remaining >= 0 && S.Spaced(e, day, draw).Some?
    ensures var r, floor := S.Spaced(e, day, draw).value, day.now + e.settings.policy.minSpacing * 1_000_000;
            if e.due.Some? && e.settings.nextPostAt.Some? && e.settings.nextPostAt.value < floor then
              r.due == e.due && r.settings.remaining <= e.settings.remaining
              && (r.settings.nextPostAt.Some? ==> floor <= r.settings.nextPostAt.value < day.end)
            else r == e
  {
    hide S.Sample;
  }

  // ---- What a pass enqueues ----

  /** The agent's posts of the local day. */
  function PostsOf(jobs: seq<Job>, agent: Id, day: (Instant, Instant)): set<nat> {
    set i: nat | i < |jobs| && jobs[i].origin.agent == agent && jobs[i].origin.output == OutputPost && day.0 <= jobs[i].origin.createdAt < day.1
  }

  ghost predicate SlotTaken(jobs: seq<Job>, agent: Id, at: Instant) {
    exists i :: 0 <= i < |jobs| && jobs[i].origin.agent == agent && jobs[i].origin.key == SlotKey(at)
  }

  /** The row of a slot: a waiting post of the agent, available at once and gone with the slot's age. */
  function SlotRow(row: nat, uuid: nat, s: Settings, at: Instant, now: Instant): Job {
    Job(Origin(row, uuid, s.agent, s.personaVersion, Scheduled, SlotKey(at), None, None, None, None, None,
               OutputPost, row, 0, s.policy.maxDepth, s.policy.maxJobs, now, at + s.policy.sourceMaxAge * 1_000_000),
        Pending, now, 0, None, None, None, None, NoCode, None)
  }

  /** The schedule has room for a post: fewer than the day's cap are reserved, and nothing within the spacing. */
  ghost predicate PostFits(jobs: seq<Job>, s: Settings, now: Instant)
    requires s.policy.zone.Valid()
  {
    && |PostsOf(jobs, s.agent, LocalDay(s.policy.zone, now))| < s.policy.postCap
    && forall i :: 0 <= i < |jobs| && jobs[i].origin.agent == s.agent ==> jobs[i].origin.createdAt <= now - s.policy.minSpacing * 1_000_000
  }

  /** A pass over a row that it looks at enqueues a job exactly when some elapsed slot is fresh, the day and the spacing have room, and
      the latest such slot has none yet. It is that slot's row, the schedule moves on either way, and nothing else changes. */
  lemma ScheduleDecides(db: Db, agent: Id, now: Instant, draw: S.Draw, uuid: nat)
    requires agent in db.accounts && db.accounts[agent].agent && !db.accounts[agent].disabled && agent in db.settings
    requires Looks(db.settings[agent], now) && uuid != 0 && S.Advance(db.settings[agent], now, draw).Some?
    ensures var s, r := db.settings[agent], ScheduleAgent(db, agent, now, draw, uuid);
            var advanced := S.Advance(s, now, draw).value;
            var moved := db.settings[agent := advanced.settings];
            && s.policy.zone.Valid() && LatestFresh(s, now, Elapsed(s, now, draw), advanced.due)
            && r == if advanced.due.Some? && PostFits(db.jobs, s, now) && !SlotTaken(db.jobs, s.agent, advanced.due.value.at) then
                      Commit(db.(settings := moved).WithRows(db.jobs + [SlotRow(|db.jobs|, uuid, s, advanced.due.value.at, now)]), Enqueued)
                    else Commit(db.(settings := moved), if advanced.due.Some? then SlotDenied else Idle)
  {
    hide S.Advance, Policy.Valid, Policy.Window, Zone.Date, Zone.Valid, FreshAt, Elapsed, LatestFresh, Job.Valid, LocalDay, Settings.Valid;
    var s := db.settings[agent];
    SpacedPolicy(s);
    PassReports(s, now, draw);
    PassKeeps(s, now, draw);
    RoomExactly(db.jobs, s, now);
    var due := S.Advance(s, now, draw).value.due;
    if due.Some? {
      DueSlot(s, now, Elapsed(s, now, draw), due);
      SlotRowValid(|db.jobs|, uuid, s, due.value, now);
    }
  }

  /** A pass rewrites only the schedule and the inspection time. */
  lemma PassKeeps(s: Settings, now: Instant, draw: S.Draw)
    requires Looks(s, now) && S.Advance(s, now, draw).Some?
    ensures var r := S.Advance(s, now, draw).value.settings;
            r == s.(nextPostAt := r.nextPostAt, scheduleDate := r.scheduleDate, remaining := r.remaining, updatedAt := now)
  {
    hide S.Sample, S.Elapse, Policy.Valid, Policy.Window, Zone.Date;
  }

  lemma RoomExactly(jobs: seq<Job>, s: Settings, now: Instant)
    requires s.policy.zone.Valid()
    ensures Eligibility.Members(jobs, SlotDay(s, now)) == PostsOf(jobs, s.agent, LocalDay(s.policy.zone, now))
    ensures Eligibility.Members(jobs, Eligibility.Recent(s.agent, now - s.policy.Spacing())) == {} <==>
              forall i :: 0 <= i < |jobs| && jobs[i].origin.agent == s.agent ==> jobs[i].origin.createdAt <= now - s.policy.minSpacing * 1_000_000
  {
    hide LocalDay;
    Selection.NoMembers(jobs, Eligibility.Recent(s.agent, now - s.policy.Spacing()));
  }

  lemma DueSlot(s: Settings, now: Instant, c: seq<Instant>, due: Option<S.Slot>)
    requires s.policy.zone.Valid() && LatestFresh(s, now, c, due) && due.Some?
    ensures now < due.value.expiresAt == due.value.at + s.policy.sourceMaxAge * 1_000_000
  {
    hide Policy.Window, Zone.Date;
  }

  lemma SlotRowValid(row: nat, uuid: nat, s: Settings, slot: S.Slot, now: Instant)
    requires s.Valid() && uuid != 0 && now != 0 && now < slot.expiresAt == slot.at + s.policy.sourceMaxAge * 1_000_000
    ensures SlotJob(row, uuid, s, slot, now) == SlotRow(row, uuid, s, slot.at, now)
    ensures SlotRow(row, uuid, s, slot.at, now).Valid()
  {
    hide Zone.Valid, Zone.Date;
  }

  /** An agent that is off is not even looked at; unusable rows and rows of a later date are only marked as inspected. */
  lemma SchedulingStops(db: Db, agent: Id, now: Instant, draw: S.Draw, uuid: nat)
    requires agent in db.accounts && agent in db.settings
    ensures var s, r := db.settings[agent], ScheduleAgent(db, agent, now, draw, uuid);
            var touched := db.(settings := db.settings[agent := s.(updatedAt := now)]);
            && (db.accounts[agent].disabled || !s.enabled ==> r == Commit(db, Ignored))
            && (!db.accounts[agent].disabled && s.enabled ==>
                  && (!db.accounts[agent].agent || S.Advance(s, now, draw).None? ==> r == Commit(touched, Invalid))
                  && (db.accounts[agent].agent && s.Valid() && now != 0 && !Looks(s, now) ==> r == Commit(touched, Idle)))
  {
    hide S.Pass, S.DayOf, Zone.Date, Policy.Valid, Job.Valid, LocalDay;
  }

  // ---- How long a slot's job keeps its place ----

  /** Where dates never go back, a fresh slot lies on today's date, and so does every later instant of the window. */
  lemma OnToday(p: Policy, now: Instant, at: Instant, t: Instant)
    requires p.Valid() && S.DatesAdvance(p.zone)
    requires var window := p.Window(p.zone.Date(now)); window.0 <= at <= now <= t < window.1
    ensures p.zone.Date(at) == p.zone.Date(now) == p.zone.Date(t)
  {
    hide Boundary;
    var date := p.zone.Date(now);
    BoundaryIsLeast(p.zone, Midnight(date) + Minutes(p.activeStart));
    assert p.zone.Date(p.Window(date).0) >= date;
    S.BeforeBoundary(p.zone, Midnight(date) + Minutes(p.activeEnd), t);
  }

  /** A slot's row in a later table: the posts ranked up to it are those it was counted with and itself. */
  lemma SlotRanks(jobs: seq<Job>, later: seq<Job>, o: Origin, day: (Instant, Instant))
    requires Admission.LaterTable(jobs, later, o.createdAt) && jobs != [] && jobs[|jobs| - 1].origin == o && o.output == OutputPost
    ensures |Recheck.DayRank(later, later[|jobs| - 1].origin, day)| <= |PostsOf(jobs[..|jobs| - 1], o.agent, day)| + 1
  {
    var n := |jobs| - 1;
    var ranked, counted := Recheck.DayRank(later, later[n].origin, day), PostsOf(jobs[..n], o.agent, day);
    forall i | i in ranked ensures i in counted + {n} {
      if i < n {
        assert jobs[..n][i] == jobs[i] && Eligibility.SameRank(jobs[i].origin, later[i].origin);
      }
    }
    SubsetSize(ranked, counted + {n});
  }

  lemma SlotSpaced(jobs: seq<Job>, later: seq<Job>, o: Origin, s: Settings)
    requires Admission.LaterTable(jobs, later, o.createdAt) && jobs != [] && jobs[|jobs| - 1].origin == o && o.agent == s.agent
    requires s.policy.zone.Valid() && PostFits(jobs[..|jobs| - 1], s, o.createdAt)
    ensures Recheck.SpacedBehind(later, later[|jobs| - 1].origin, s.policy)
  {
    hide LocalDay;
    var n := |jobs| - 1;
    forall i | 0 <= i < |later| && Recheck.Ahead(later[i].origin, later[n].origin) && later[i].origin.agent == later[n].origin.agent
      ensures later[i].origin.createdAt <= later[n].origin.createdAt - s.policy.minSpacing * 1_000_000
    {
      if i < n {
        assert jobs[..n][i] == jobs[i] && Eligibility.SameRank(jobs[i].origin, later[i].origin);
      }
    }
  }

  /** The job of a slot keeps passing every execution check in today's window until it expires, whatever is reserved later: under the
      policy that scheduled it, where dates never go back, with a token budget and the publication spacing elapsed, when fewer
      posts of the day than the policy schedules were there before it. */
  lemma SlotHolds(jobs: seq<Job>, uuid: nat, s: Settings, slot: S.Slot, now: Instant, c: seq<Instant>, later: seq<Job>,
                  last: Option<Instant>, sourceAt: Option<Instant>, t: Instant)
    requires s.Valid() && s.policy.zone.Valid() && S.DatesAdvance(s.policy.zone) && s.policy.dailyTokens > 0
    requires LatestFresh(s, now, c, Some(slot)) && slot.at <= now && slot.at != 0 && PostFits(jobs, s, now)
    requires |PostsOf(jobs, s.agent, LocalDay(s.policy.zone, now))| < s.policy.scheduledMax
    requires Admission.LaterTable(jobs + [SlotRow(|jobs|, uuid, s, slot.at, now)], later, now) && later[|jobs|].Valid()
    requires now <= t < slot.at + s.policy.sourceMaxAge * 1_000_000 && t < s.policy.Window(s.policy.zone.Date(now)).1 && t != 0
    requires last.Some? ==> t >= last.value + s.policy.minSpacing * 1_000_000
    ensures Eligibility.Allowed(later, later[|jobs|], s.policy, last, sourceAt, t)
  {
    hide Policy.Valid, Zone.Date, Zone.Valid, LocalDay, Job.Valid, Eligibility.Allowed, Recheck.SpacedBehind, Recheck.DayRank, PostFits, PostsOf,
         Policy.Window;
    var table := jobs + [SlotRow(|jobs|, uuid, s, slot.at, now)];
    assert table[..|table| - 1] == jobs;
    SpacedPolicy(s);
    CapCovers(s);
    SlotSpaced(table, later, table[|jobs|].origin, s);
    SlotRanks(table, later, table[|jobs|].origin, LocalDay(s.policy.zone, now));
    OnToday(s.policy, now, slot.at, t);
    assert Eligibility.SameRank(table[|jobs|].origin, later[|jobs|].origin);
    Recheck.AllowedExactly(later, later[|jobs|], s.policy, last, sourceAt, t);
  }

  lemma CapCovers(s: Settings)
    requires s.Valid()
    ensures s.policy.Valid() && s.policy.scheduledMax <= s.policy.postCap
  {
    hide Zone.Valid;
  }

  // ---- Policy edits ----

  /** The policy columns that a drawn day depends on. */
  predicate SameDay(a: Policy, b: Policy) {
    && (a.zone, a.activeStart, a.activeEnd, a.scheduledMin) == (b.zone, b.activeStart, b.activeEnd, b.scheduledMin)
    && (a.scheduledMax, a.postCap, a.minSpacing, a.sourceMaxAge) == (b.scheduledMax, b.postCap, b.minSpacing, b.sourceMaxAge)
  }

  /** The latest of the date sampled and of today in both zones. */
  function RetiredDate(s: Settings, policy: Policy, now: Instant): int {
    var today := Max(s.policy.zone.Date(now), policy.zone.Date(now));
    match s.scheduleDate
    case None => today
    case Some(date) => Max(date, today)
  }

  /** A valid edit of valid settings is always stored. It keeps the drawn day exactly when none of the columns the day depends on
      changes, and otherwise retires it: no slot is left of it, and none is drawn before a later date. */
  lemma EditDecides(db: Db, agent: Id, policy: Policy, now: Instant)
    requires now >= TWO_DAYS
    ensures var r := SetPolicy(db, agent, policy, now);
            if policy.Valid() && agent in db.accounts && db.accounts[agent].agent && agent in db.settings && db.settings[agent].Valid() then
              var s := db.settings[agent];
              var edited := s.(policy := policy, updatedAt := now);
              r == Commit(db.(settings := db.settings[agent :=
                     if SameDay(s.policy, policy) then edited
                     else edited.(scheduleDate := Some(RetiredDate(s, policy, now)), remaining := 0, nextPostAt := None)]), ())
            else r.Abort?
  {
    hide Policy.Valid, Zone.Date;
    if policy.Valid() && agent in db.settings && db.settings[agent].Valid() {
      EditedValid(db.settings[agent], policy, now);
    }
  }

  lemma EditedValid(s: Settings, policy: Policy, now: Instant)
    requires s.Valid() && policy.Valid() && now >= TWO_DAYS
    ensures SameDay(s.policy, policy) ==> s.(policy := policy, updatedAt := now).Valid()
    ensures s.policy.zone.Date(now) >= 0 && policy.zone.Date(now) >= 0 && policy.scheduledMax >= 0
  {
    hide Zone.EraOf;
  }
}
