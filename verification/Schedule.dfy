/** Random posting slots of a local day: sampling with spacing, elapsing, and policy edits. */
module Schedule {
  import opened Basics
  import opened Zones
  import opened Policies

  /** The k-th call of the random source with bound n. */
  type Draw = (nat, int) -> int

  datatype Slot = Slot(at: Instant, expiresAt: Instant)

  datatype Sampled = Sampled(settings: Settings, used: nat)

  datatype Advanced = Advanced(settings: Settings, due: Option<Slot>, used: nat)

  datatype Day = Day(start: Instant, end: Instant, lower: Instant, now: Instant)

  ghost predicate InBounds(draw: Draw) {
    forall k, n :: n >= 1 ==> 0 <= draw(k, n) < n
  }

  function DrawBelow(draw: Draw, used: nat, n: int): (r: Option<(int, nat)>)
    ensures r.Some? ==> 0 <= r.value.0 < n && used <= r.value.1 <= used + 1
    ensures n >= 1 && InBounds(draw) ==> r.Some?
  {
    if n == 1 then Some((0, used))
    else if n < 1 then None
    else
      var value := draw(used, n);
      if 0 <= value < n then Some((value, used + 1)) else None
  }

  /** Remaining slots, at full spacing from the next one, still fit before the end. */
  ghost predicate FitsBefore(s: Settings, end: Instant) {
    s.nextPostAt.Some? ==> s.nextPostAt.value + (s.remaining - 1) * s.policy.Spacing() < end
  }

  ghost predicate SameBut(s: Settings, r: Settings) {
    r == s.(nextPostAt := r.nextPostAt, remaining := r.remaining)
  }

  function Sample(s: Settings, lower: Instant, end: Instant, draw: Draw, used: nat): (r: Option<Sampled>)
    requires s.policy.minSpacing >= 1 && s.remaining >= 0
    ensures r.Some? ==> SameBut(s, r.value.settings)
    ensures r.Some? ==> 0 <= r.value.settings.remaining <= s.remaining
    ensures r.Some? ==> (r.value.settings.nextPostAt.Some? <==> r.value.settings.remaining > 0)
    ensures r.Some? && r.value.settings.nextPostAt.Some? ==> lower <= r.value.settings.nextPostAt.value < end
    ensures r.Some? ==> FitsBefore(r.value.settings, end)
    ensures InBounds(draw) ==> r.Some?
  {
    if end <= lower || s.remaining == 0 then
      Some(Sampled(s.(nextPostAt := None, remaining := 0), used))
    else
      var spacing := s.policy.Spacing();
      var remaining := Min(s.remaining, (end - lower - 1) / spacing + 1);
      var latest := end - (remaining - 1) * spacing;
      WholeSpacings(end - lower - 1, spacing);
      ScaleOrder(remaining - 1, (end - lower - 1) / spacing, spacing);
      ScaleOrder(0, remaining - 1, spacing);
      var offset :- DrawBelow(draw, used, latest - lower);
      Some(Sampled(s.(nextPostAt := Some(lower + offset.0), remaining := remaining), offset.1))
  }

  function SlotAt(s: Settings, at: Instant, day: Day, due: Option<Slot>): Option<Slot> {
    var expires := at + Seconds(s.policy.sourceMaxAge);
    if day.lower <= at && day.start <= day.now < day.end && day.now < expires then Some(Slot(at, expires)) else due
  }

  /** Consume every slot at or before now, keeping the last one that is still fresh. */
  function Elapse(s: Settings, day: Day, due: Option<Slot>, draw: Draw, used: nat): (r: Option<Advanced>)
    requires s.policy.minSpacing >= 1 && s.remaining >= 0
    requires s.nextPostAt.Some? ==> s.remaining > 0
    ensures r.Some? ==> SameBut(s, r.value.settings)
    ensures r.Some? ==> 0 <= r.value.settings.remaining <= s.remaining
    ensures r.Some? && r.value.due != due ==> r.value.settings.remaining < s.remaining
    ensures InBounds(draw) ==> r.Some?
    decreases s.remaining
  {
    if s.nextPostAt.None? || day.now < s.nextPostAt.value then
      Some(Advanced(s, due, used))
    else
      var at := s.nextPostAt.value;
      var next :- Sample(s.(remaining := s.remaining - 1), at + s.policy.Spacing(), day.end, draw, used);
      Elapse(next.settings, day, SlotAt(s, at, day, due), draw, next.used)
  }

  function DayOf(s: Settings, now: Instant): Day
    requires s.policy.zone.Valid()
  {
    var (start, end) := s.policy.Window(s.policy.zone.Date(now));
    var lower := match s.lastPublishedAt
      case None => start
      case Some(at) => Max(start, at + s.policy.Spacing());
    Day(start, end, lower, now)
  }

  /** The day's count and first slot, drawn once per local date. */
  function Begin(s: Settings, date: int, day: Day, draw: Draw): (r: Option<Sampled>)
    requires s.Valid()
    ensures InBounds(draw) ==> r.Some?
  {
    var count :- DrawBelow(draw, 0, s.policy.scheduledMax - s.policy.scheduledMin + 1);
    var dated := s.(scheduleDate := Some(date), remaining := s.policy.scheduledMin + count.0, nextPostAt := None);
    Sample(dated, Max(day.lower, day.now), day.end, draw, count.1)
  }

  predicate After(a: Option<int>, b: Option<int>) {
    a.Some? && (b.None? || a.value > b.value)
  }

  predicate Active(s: Settings, now: Instant)
    requires s.Valid()
  {
    s.enabled && !After(s.scheduleDate, Some(s.policy.zone.Date(now)))
  }

  function Begun(s: Settings, date: int, day: Day, draw: Draw): (r: Option<Sampled>)
    requires s.Valid()
    ensures r.Some? ==> r.value.settings.policy == s.policy && r.value.settings.remaining >= 0
    ensures r.Some? && r.value.settings.nextPostAt.Some? ==> r.value.settings.remaining > 0
  {
    if s.scheduleDate != Some(date) then Begin(s, date, day, draw)
    else if s.Ready() then Some(Sampled(s, 0))
    else None
  }

  /** The next opportunity after a due slot, at least one spacing after this pass. */
  function Spaced(e: Advanced, day: Day, draw: Draw): (r: Option<Advanced>)
    requires e.settings.policy.minSpacing >= 1 && e.settings.remaining >= 0
    ensures InBounds(draw) ==> r.Some?
  {
    var next := e.settings.nextPostAt;
    if e.due.Some? && next.Some? && next.value < day.now + e.settings.policy.Spacing() then
      var sampled :- Sample(e.settings, day.now + e.settings.policy.Spacing(), day.end, draw, e.used);
      Some(Advanced(sampled.settings, e.due, sampled.used))
    else Some(e)
  }

  function Pass(s: Settings, date: int, day: Day, draw: Draw): (r: Option<Advanced>)
    requires s.Valid()
  {
    var begun :- Begun(s, date, day, draw);
    var elapsed :- Elapse(begun.settings, day, None, draw, begun.used);
    var spaced :- Spaced(elapsed, day, draw);
    Some(spaced.(settings := spaced.settings.(updatedAt := day.now)))
  }

  /** One scheduling pass: None is the error return, which the caller does not persist. */
  function Advance(s: Settings, now: Instant, draw: Draw): (r: Option<Advanced>) {
    if !s.Valid() || now == 0 then None
    else if !Active(s, now) then Some(Advanced(s, None, 0))
    else Pass(s, s.policy.zone.Date(now), DayOf(s, now), draw)
  }

  /** The walk over elapsed slots, rewriting the settings one slot at a time. */
  method ElapseSlots(settings: Settings, day: Day, draw: Draw, first: nat) returns (r: Option<Advanced>)
    requires settings.policy.minSpacing >= 1 && settings.remaining >= 0
    requires settings.nextPostAt.Some? ==> settings.remaining > 0
    ensures r == Elapse(settings, day, None, draw, first)
  {
    var s, used, due := settings, first, None;
    ghost var whole := Elapse(s, day, None, draw, first);
    while s.nextPostAt.Some? && s.nextPostAt.value <= day.now
      invariant s.policy == settings.policy && s.remaining >= 0
      invariant s.nextPostAt.Some? ==> s.remaining > 0
      invariant Elapse(s, day, due, draw, used) == whole
      decreases s.remaining
    {
      var at := s.nextPostAt.value;
      due := SlotAt(s, at, day, due);
      s := s.(remaining := s.remaining - 1);
      var next := Sample(s, at + s.policy.Spacing(), day.end, draw, used);
      if next.None? {
        return None;
      }
      s, used := next.value.settings, next.value.used;
    }
    r := Some(Advanced(s, due, used));
  }

  /** An active pass in the order the settings are rewritten: begin the day, walk the elapsed slots,
      then space the next opportunity. */
  method RunPass(settings: Settings, date: int, day: Day, draw: Draw) returns (r: Option<Advanced>)
    requires settings.Valid()
    ensures r == Pass(settings, date, day, draw)
  {
    hide Sample, Elapse;
    var s, used := settings, 0;
    if s.scheduleDate != Some(date) {
      var begun := Begin(s, date, day, draw);
      if begun.None? {
        return None;
      }
      s, used := begun.value.settings, begun.value.used;
    } else if !s.Ready() {
      return None;
    }
    var elapsed := ElapseSlots(s, day, draw, used);
    if elapsed.None? {
      return None;
    }
    var due := elapsed.value.due;
    s, used := elapsed.value.settings, elapsed.value.used;
    if due.Some? && s.nextPostAt.Some? && s.nextPostAt.value < day.now + s.policy.Spacing() {
      var next := Sample(s, day.now + s.policy.Spacing(), day.end, draw, used);
      if next.None? {
        return None;
      }
      s, used := next.value.settings, next.value.used;
    }
    s := s.(updatedAt := day.now);
    r := Some(Advanced(s, due, used));
  }

  method AdvanceSchedule(s: Settings, now: Instant, draw: Draw) returns (r: Option<Advanced>)
    ensures r == Advance(s, now, draw)
  {
    if !s.Valid() || now == 0 {
      return None;
    }
    if !s.enabled || After(s.scheduleDate, Some(s.policy.zone.Date(now))) {
      return Some(Advanced(s, None, 0));
    }
    r := RunPass(s, s.policy.zone.Date(now), DayOf(s, now), draw);
  }

  predicate SameScheduling(a: Policy, b: Policy) {
    && a.zone == b.zone && a.activeStart == b.activeStart && a.activeEnd == b.activeEnd
    && a.scheduledMin == b.scheduledMin && a.scheduledMax == b.scheduledMax && a.postCap == b.postCap
    && a.minSpacing == b.minSpacing && a.sourceMaxAge == b.sourceMaxAge
  }

  function LaterDate(a: Option<int>, b: int): Option<int> {
    if After(a, Some(b)) then a else Some(b)
  }

  /** A policy edit; scheduling edits retire the remaining day under both zones. */
  function ChangePolicy(s: Settings, policy: Policy, now: Instant): Option<Settings> {
    if !s.Valid() || !policy.Valid() || now == 0 then None
    else
      var kept :=
        if SameScheduling(s.policy, policy) then s
        else
          var date := LaterDate(LaterDate(s.scheduleDate, s.policy.zone.Date(now)), policy.zone.Date(now));
          s.(scheduleDate := date, remaining := 0, nextPostAt := None);
      var changed := kept.(policy := policy, updatedAt := now);
      if changed.Valid() then Some(changed) else None
  }

  /** Whether a scheduled reservation may still execute: its key names the original slot. */
  function SlotAllowed(slot: Option<Instant>, p: Policy, createdAt: Instant, expiresAt: Instant, now: Instant): bool {
    && p.Valid() && createdAt != 0 && now != 0 && createdAt <= now < expiresAt && p.scheduledMax != 0
    && slot.Some? && slot.value != 0 && slot.value <= createdAt
    && now < slot.value + Seconds(p.sourceMaxAge)
    && (var date := p.zone.Date(slot.value);
        var (start, end) := p.Window(date);
        p.zone.Date(now) == date && start <= slot.value < end && start <= now < end)
  }

  // ---- One pass ----

  /** No instant reads an earlier local date than an earlier instant did. */
  ghost predicate DatesAdvance(z: Zone) {
    forall t, u :: t <= u ==> z.Date(t) <= z.Date(u)
  }

  lemma BeforeBoundary(z: Zone, wall: int, t: Instant)
    requires z.Valid() && t < Boundary(z, wall)
    ensures z.Local(t) < wall
  {
    BoundaryIsLeast(z, wall);
  }

  predicate InWindow(p: Policy, date: int, at: Instant)
    requires p.zone.Valid()
  {
    p.Window(date).0 <= at < p.Window(date).1
  }

  /** Once a date has been read, the rest of its window reads no other, from the third day of year 1 on. */
  ghost predicate Steady(p: Policy)
    requires p.zone.Valid()
  {
    forall t, u :: TWO_DAYS <= t <= u && InWindow(p, p.zone.Date(t), u) ==> p.zone.Date(u) == p.zone.Date(t)
  }

  lemma AdvancingIsSteady(p: Policy)
    requires p.Valid() && DatesAdvance(p.zone)
    ensures Steady(p)
  {
    hide Boundary;
    forall t, u | TWO_DAYS <= t <= u && InWindow(p, p.zone.Date(t), u) ensures p.zone.Date(u) == p.zone.Date(t) {
      BeforeBoundary(p.zone, Midnight(p.zone.Date(t)) + Minutes(p.activeEnd), u);
    }
  }

  /** Settings as a pass leaves them on a date: slots remain exactly when a next one is known, and all of them fit into the window. */
  ghost predicate Settled(s: Settings, date: int, day: Day) {
    && s.policy.minSpacing >= 1 && 0 <= s.remaining && s.scheduleDate == Some(date)
    && (s.remaining > 0 <==> s.nextPostAt.Some?)
    && FitsBefore(s, day.end)
    && (s.nextPostAt.Some? ==> day.start <= s.nextPostAt.value)
  }

  ghost predicate FreshSlot(p: Policy, day: Day, slot: Slot) {
    && day.start <= slot.at <= day.now < day.end
    && day.lower <= slot.at
    && slot.expiresAt == slot.at + Seconds(p.sourceMaxAge) && day.now < slot.expiresAt
  }

  /** Elapsing ends with the next slot strictly in the future, keeps the settings settled,
      and a slot it reports is fresh and in window. */
  lemma {:induction false} ElapseFacts(s: Settings, date: int, day: Day, due: Option<Slot>, draw: Draw, used: nat)
    requires Settled(s, date, day) && InBounds(draw)
    requires day.start <= day.lower
    requires due.Some? ==> FreshSlot(s.policy, day, due.value)
    ensures Elapse(s, day, due, draw, used).Some?
    ensures var r := Elapse(s, day, due, draw, used).value;
            && Settled(r.settings, date, day)
            && (r.settings.nextPostAt.Some? ==> r.settings.nextPostAt.value > day.now)
            && (r.due.Some? ==> FreshSlot(s.policy, day, r.due.value))
    decreases s.remaining
  {
    hide Sample, Zone.Date, FitsBefore;
    if s.nextPostAt.Some? && s.nextPostAt.value <= day.now {
      var at := s.nextPostAt.value;
      var spacing := s.policy.Spacing();
      var next := Sample(s.(remaining := s.remaining - 1), at + spacing, day.end, draw, used).value;
      assert Settled(next.settings, date, day);
      ElapseFacts(next.settings, date, day, SlotAt(s, at, day, due), draw, next.used);
    }
  }

  /** What a pass leaves behind, from settings that satisfy the schedule invariant and draws inside their bounds. */
  ghost predicate PassFacts(s: Settings, date: int, day: Day, r: Advanced) {
    && r.settings == s.(scheduleDate := Some(date), nextPostAt := r.settings.nextPostAt,
                        remaining := r.settings.remaining, updatedAt := day.now)
    && Settled(r.settings, date, day)
    && r.settings.remaining <= s.policy.scheduledMax
    && (r.settings.nextPostAt.Some? ==> r.settings.nextPostAt.value > day.now)
    && (r.due.Some? ==> FreshSlot(s.policy, day, r.due.value))
    && (r.due.Some? && r.settings.nextPostAt.Some? ==> r.settings.nextPostAt.value >= day.now + s.policy.Spacing())
  }

  lemma BegunFacts(s: Settings, date: int, day: Day, draw: Draw)
    requires s.Valid() && s.Ready() && InBounds(draw)
    requires day.start <= day.lower
    requires s.scheduleDate == Some(date) ==> FitsBefore(s, day.end) && (s.nextPostAt.Some? ==> day.start <= s.nextPostAt.value)
    ensures Begun(s, date, day, draw).Some?
    ensures Settled(Begun(s, date, day, draw).value.settings, date, day)
    ensures var r := Begun(s, date, day, draw).value.settings;
            SameBut(s.(scheduleDate := Some(date)), r) && r.remaining <= s.policy.scheduledMax
  {
    hide Sample, Zone.Date, FitsBefore;
  }

  lemma SpacedFacts(e: Advanced, date: int, day: Day, draw: Draw)
    requires Settled(e.settings, date, day) && InBounds(draw)
    requires e.settings.nextPostAt.Some? ==> e.settings.nextPostAt.value > day.now
    ensures Spaced(e, day, draw).Some?
    ensures var r := Spaced(e, day, draw).value.settings;
            && Settled(r, date, day) && SameBut(e.settings, r) && r.remaining <= e.settings.remaining
            && Spaced(e, day, draw).value.due == e.due
            && (r.nextPostAt.Some? ==> r.nextPostAt.value > day.now)
            && (e.due.Some? && r.nextPostAt.Some? ==> r.nextPostAt.value >= day.now + r.policy.Spacing())
  {
    hide Sample, Zone.Date, FitsBefore;
  }

  /** A pass over settings that satisfy the schedule invariant never fails: what remains still fits at full
      spacing, a due slot is fresh and in its window, and the next one is a spacing away. */
  lemma PassSettles(s: Settings, date: int, day: Day, draw: Draw)
    requires s.Valid() && s.Ready() && InBounds(draw)
    requires day.start <= day.lower
    requires s.scheduleDate == Some(date) ==> FitsBefore(s, day.end) && (s.nextPostAt.Some? ==> day.start <= s.nextPostAt.value)
    ensures Pass(s, date, day, draw).Some?
    ensures PassFacts(s, date, day, Pass(s, date, day, draw).value)
  {
    hide Sample, Zone.Date, Begun, Elapse, Spaced;
    BegunFacts(s, date, day, draw);
    var b := Begun(s, date, day, draw).value;
    ElapseFacts(b.settings, date, day, None, draw, b.used);
    var e := Elapse(b.settings, day, None, draw, b.used).value;
    SpacedFacts(e, date, day, draw);
    var r := Spaced(e, day, draw).value;
    assert Settled(r.settings.(updatedAt := day.now), date, day);
  }

  /** The schedule invariant between passes: valid settings that know their next slot, all slots fitting the day's window. */
  ghost predicate Invariant(s: Settings) {
    && s.Valid() && s.Ready()
    && (s.scheduleDate.Some? ==>
          var (start, end) := s.policy.Window(s.scheduleDate.value);
          FitsBefore(s, end) && (s.nextPostAt.Some? ==> start <= s.nextPostAt.value))
  }

  ghost predicate SlotInWindow(p: Policy, now: Instant, slot: Slot)
    requires p.zone.Valid()
  {
    var (start, end) := p.Window(p.zone.Date(now));
    && start <= slot.at <= now < end
    && now < slot.expiresAt && slot.expiresAt == slot.at + Seconds(p.sourceMaxAge)
  }

  /** On settings that satisfy the invariant and draws inside their bounds, a pass never fails, keeps the
      invariant, yields only a fresh slot in its window with the next one a spacing later, and
      a second pass at the same instant draws nothing, changes nothing and yields no slot. */
  lemma AdvanceSound(s: Settings, now: Instant, draw: Draw, again: Draw)
    requires Invariant(s) && s.enabled && InBounds(draw) && now >= TWO_DAYS
    requires s.policy.scheduledMax == 0 || Steady(s.policy)
    ensures Advance(s, now, draw).Some?
    ensures var r := Advance(s, now, draw).value;
            && Invariant(r.settings)
            && (r.due.Some? ==> SlotInWindow(s.policy, now, r.due.value))
            && (r.due.Some? && r.settings.nextPostAt.Some? ==> r.settings.nextPostAt.value >= now + s.policy.Spacing())
            && Advance(r.settings, now, again) == Some(Advanced(r.settings, None, 0))
  {
    if Active(s, now) {
      var date := s.policy.zone.Date(now);
      var day := DayOf(s, now);
      PassSettles(s, date, day, draw);
      var r := Pass(s, date, day, draw).value;
      if r.settings.nextPostAt.Some? {
        SlotOnDate(s.policy, now, r.settings.nextPostAt.value, r.settings.remaining);
      }
      SettledIsInvariant(s, date, day, r);
      SettledRepeats(r.settings, date, now, again);
    }
  }

  lemma SlotOnDate(p: Policy, now: Instant, at: Instant, remaining: int)
    requires p.Valid() && Steady(p) && TWO_DAYS <= now < at && remaining >= 1
    requires p.Window(p.zone.Date(now)).0 <= at && at + (remaining - 1) * p.Spacing() < p.Window(p.zone.Date(now)).1
    ensures p.zone.Date(at) == p.zone.Date(now)
  {
    hide Boundary, Zone.Date;
    ScaleOrder(0, remaining - 1, p.Spacing());
    assert InWindow(p, p.zone.Date(now), at);
  }

  /** A pass that can be saved: it succeeds and keeps the invariant. */
  ghost predicate Survives(s: Settings, now: Instant, draw: Draw) {
    Advance(s, now, draw).Some? && Invariant(Advance(s, now, draw).value.settings)
  }

  /** A policy keeps every agent's schedule valid, whatever is drawn and whenever its passes run, if and only if it schedules
      nothing or its windows are steady. */
  lemma SurvivesExactly(p: Policy)
    requires p.Valid()
    ensures (forall s: Settings, now, draw ::
               s.policy == p && s.enabled && Invariant(s) && InBounds(draw) && now >= TWO_DAYS ==> Survives(s, now, draw))
            <==> p.scheduledMax == 0 || Steady(p)
  {
    hide Advance, Invariant, Boundary;
    if p.scheduledMax == 0 || Steady(p) {
      forall s: Settings, now, draw | s.policy == p && s.enabled && Invariant(s) && InBounds(draw) && now >= TWO_DAYS
        ensures Survives(s, now, draw)
      {
        AdvanceSound(s, now, draw, draw);
      }
    } else {
      var t, u :| TWO_DAYS <= t <= u && InWindow(p, p.zone.Date(t), u) && p.zone.Date(u) != p.zone.Date(t);
      SlotGoesBack(p, t, u);
    }
  }

  /** Settings whose agent last published a spacing before the instant, with no day sampled yet. */
  function PublishedBefore(p: Policy, at: Instant): Settings {
    Settings(1, 1, true, 0, p, None, None, 0, Some(at - p.Spacing()), 1)
  }

  /** The largest count of a day, and its earliest slots. */
  function EarliestSlots(p: Policy): Draw {
    if p.scheduledMin == p.scheduledMax then (k, n) => 0 else (k, n) => if k == 0 then n - 1 else 0
  }

  /** When the clock goes back over a date inside the window, the slot drawn there lies on another date than the schedule: the
      saved row is invalid, and every later pass or policy edit refuses it. */
  lemma SlotGoesBack(p: Policy, t: Instant, u: Instant)
    requires p.Valid() && p.scheduledMax >= 1 && TWO_DAYS <= t <= u
    requires InWindow(p, p.zone.Date(t), u) && p.zone.Date(u) != p.zone.Date(t)
    ensures var s := PublishedBefore(p, u);
            && Invariant(s) && InBounds(EarliestSlots(p)) && !Survives(s, t, EarliestSlots(p))
            && Advance(s, t, EarliestSlots(p)).Some?
            && var r := Advance(s, t, EarliestSlots(p)).value.settings;
            r.nextPostAt == Some(u) && !r.Valid() && forall e: Event :: !e.Rest? ==> Next(r, e) == r
  {
    hide Boundary, Zone.Date;
  }

  /** A zone that goes back an hour one minute past midnight, as Newfoundland did until 2011. */
  function MinutePastMidnight(): Zone {
    Zone("", 0, [Change(Midnight(10) + Minutes(1), -Minutes(60))])
  }

  lemma NightReads(t: Instant)
    ensures MinutePastMidnight().Valid()
    ensures var change := Midnight(10) + Minutes(1);
            MinutePastMidnight().Local(t) == if t < change then t else t - Minutes(60)
  {
  }

  /** Any valid policy open around midnight in such a zone is unsteady: the first minute of the date is followed by an hour of the day before. */
  lemma AnHourTwice(p: Policy)
    requires p.Valid() && p.zone == MinutePastMidnight() && p.activeStart == 0 && p.activeEnd >= 60
    ensures !Steady(p)
  {
    hide Policy.Valid, Boundary, Zone.Local;
    var z, t, u := p.zone, Midnight(10), Midnight(10) + Minutes(1);
    NightReads(t);
    NightReads(u);
    BoundaryIsLeast(z, Midnight(10) + Minutes(p.activeStart));
    BoundaryIsLeast(z, Midnight(10) + Minutes(p.activeEnd));
    NightReads(p.Window(10).0);
    NightReads(p.Window(10).1);
    assert z.Date(t) == 10 && z.Date(u) == 9;
    assert InWindow(p, z.Date(t), u);
  }

  /** With draws inside their bounds a pass fails exactly on invalid settings, on no clock, and on a day
      already sampled whose next slot is missing. */
  lemma AdvanceFailsExactly(s: Settings, now: Instant, draw: Draw)
    requires InBounds(draw)
    ensures Advance(s, now, draw).None? <==>
              || !s.Valid() || now == 0
              || (s.enabled && s.scheduleDate == Some(s.policy.zone.Date(now)) && !s.Ready())
  {
    hide Sample, Elapse, Zone.Date, DayOf, Policy.Window, Boundary;
    if s.Valid() && now != 0 && Active(s, now) {
      BegunExactly(s, s.policy.zone.Date(now), DayOf(s, now), draw);
    }
  }

  lemma BegunExactly(s: Settings, date: int, day: Day, draw: Draw)
    requires s.Valid() && InBounds(draw)
    ensures Begun(s, date, day, draw).Some? <==> s.scheduleDate != Some(date) || s.Ready()
    ensures Begun(s, date, day, draw).Some? <==> Pass(s, date, day, draw).Some?
  {
    hide Sample, Elapse, Zone.Date, DrawBelow;
  }

  lemma SettledIsInvariant(s: Settings, date: int, day: Day, r: Advanced)
    requires s.Valid() && date >= 0 && day.now > 0 && (day.start, day.end) == s.policy.Window(date)
    requires PassFacts(s, date, day, r)
    requires r.settings.nextPostAt.Some? ==> s.policy.zone.Date(r.settings.nextPostAt.value) == date
    ensures Invariant(r.settings)
  {
    hide Policy.Valid, Zone.Date, FitsBefore, Boundary;
  }

  lemma SettledRepeats(s: Settings, date: int, now: Instant, draw: Draw)
    requires s.Valid() && s.Ready() && s.enabled && now != 0 && s.updatedAt == now
    requires date == s.policy.zone.Date(now) && s.scheduleDate == Some(date)
    requires s.nextPostAt.Some? ==> s.nextPostAt.value > now
    ensures Advance(s, now, draw) == Some(Advanced(s, None, 0))
  {
    hide Policy.Valid, Zone.Date, FitsBefore, Boundary, Policy.Window;
  }

  lemma ChangeKeepsInvariant(s: Settings, policy: Policy, now: Instant)
    requires Invariant(s) && ChangePolicy(s, policy, now).Some?
    ensures Invariant(ChangePolicy(s, policy, now).value)
  {
    hide Policy.Valid, Zone.Date, Boundary;
  }

  // ---- Whole runs of passes and policy edits, at any times and with any draws ----

  /** A pass, a policy edit, or any other change of the row, which leaves policy and schedule alone. */
  datatype Event = Tick(at: Instant, draw: Draw) | Edit(policy: Policy, at: Instant) | Rest(row: Settings)

  function Next(s: Settings, e: Event): Settings {
    match e
    case Tick(at, draw) => (match Advance(s, at, draw) case Some(r) => r.settings case None => s)
    case Edit(policy, at) => (match ChangePolicy(s, policy, at) case Some(r) => r case None => s)
    case Rest(row) => row.(policy := s.policy, nextPostAt := s.nextPostAt, scheduleDate := s.scheduleDate, remaining := s.remaining)
  }

  function Play(s: Settings, es: seq<Event>): Settings
    decreases es
  {
    if es == [] then s else Play(Next(s, es[0]), es[1..])
  }

  /** Whether the event draws the count of a local date. */
  predicate Draws(s: Settings, e: Event, date: int) {
    e.Tick? && Next(s, e).scheduleDate == Some(date) && s.scheduleDate != Some(date)
  }

  predicate Yields(s: Settings, e: Event, date: int) {
    e.Tick? && Advance(s, e.at, e.draw).Some? && Advance(s, e.at, e.draw).value.due.Some?
    && Next(s, e).scheduleDate == Some(date)
  }

  /** The daily maximum in force at each drawing of a date, in order. */
  function Drawings(s: Settings, es: seq<Event>, date: int): seq<int>
    decreases es
  {
    if es == [] then []
    else (if Draws(s, es[0], date) then [s.policy.scheduledMax] else []) + Drawings(Next(s, es[0]), es[1..], date)
  }

  /** How many slots came due on a date. */
  function Dues(s: Settings, es: seq<Event>, date: int): nat
    decreases es
  {
    if es == [] then 0
    else (if Yields(s, es[0], date) then 1 else 0) + Dues(Next(s, es[0]), es[1..], date)
  }

  predicate Reached(a: Option<int>, b: Option<int>) {
    a.None? || (b.Some? && a.value <= b.value)
  }

  ghost predicate StepFacts(s: Settings, e: Event) {
    var r := Next(s, e);
    && Reached(s.scheduleDate, r.scheduleDate)
    && (r.scheduleDate.Some? ==>
          var spent := if Yields(s, e, r.scheduleDate.value) then 1 else 0;
          if Draws(s, e, r.scheduleDate.value) then Max(r.remaining, 0) + spent <= s.policy.scheduledMax
          else if s.scheduleDate == r.scheduleDate then Max(r.remaining, 0) + spent <= Max(s.remaining, 0)
          else Max(r.remaining, 0) + spent == 0)
  }

  lemma PassBounds(s: Settings, date: int, day: Day, draw: Draw)
    requires s.Valid() && Pass(s, date, day, draw).Some?
    ensures var r := Pass(s, date, day, draw).value;
            && r.settings.scheduleDate == Some(date)
            && var spent := if r.due.Some? then 1 else 0;
            && (if s.scheduleDate == Some(date) then r.settings.remaining + spent <= s.remaining
                else r.settings.remaining + spent <= s.policy.scheduledMax)
            && r.settings.remaining >= 0
  {
    hide Sample, Elapse, Policy.Valid, Zone.Date;
  }

  lemma NextFacts(s: Settings, e: Event)
    ensures StepFacts(s, e)
  {
    hide Pass, DayOf, Zone.Date;
    if e.Tick? && Advance(s, e.at, e.draw).Some? && Active(s, e.at) {
      PassBounds(s, s.policy.zone.Date(e.at), DayOf(s, e.at), e.draw);
    }
  }

  /** Over any run: the schedule date never moves back, a local date is drawn at most once and never again once
      reached, and the slots that come due on it are at most the maximum in force when it was drawn. */
  lemma {:induction false} RunBounds(s: Settings, es: seq<Event>, date: int)
    ensures Reached(s.scheduleDate, Play(s, es).scheduleDate)
    ensures |Drawings(s, es, date)| <= 1
    ensures Reached(Some(date), s.scheduleDate) ==> Drawings(s, es, date) == []
    ensures Dues(s, es, date) <= if Drawings(s, es, date) != [] then Drawings(s, es, date)[0]
                                 else if s.scheduleDate == Some(date) then Max(s.remaining, 0) else 0
    decreases es
  {
    hide Next, Advance, ChangePolicy;
    if es != [] {
      var n := Next(s, es[0]);
      NextFacts(s, es[0]);
      RunBounds(n, es[1..], date);
      var rest := Drawings(n, es[1..], date);
      if Draws(s, es[0], date) {
        assert rest == [];
        assert Drawings(s, es, date) == [s.policy.scheduledMax];
      } else {
        assert Drawings(s, es, date) == rest;
      }
    }
  }
}
