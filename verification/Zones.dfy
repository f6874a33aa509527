/** Local wall clocks over arbitrary zone transitions, and the resolution of a
    wall time to an instant. A zone is a first offset and a sequence of offset changes. */
module Zones {
  import opened Basics

  const TWO_DAYS: int := 172_800_000_000

  datatype Change = Change(at: Instant, offset: int)

  datatype Zone = Zone(name: string, first: int, changes: seq<Change>) {

    predicate Valid() {
      && -TWO_DAYS < first < TWO_DAYS
      && (forall i :: 0 <= i < |changes| ==> -TWO_DAYS < changes[i].offset < TWO_DAYS)
      && (forall i, j :: 0 <= i < j < |changes| ==> changes[i].at < changes[j].at)
    }

    /** How many changes have happened by instant t, looking no further back than the first k. */
    function EraOf(t: Instant, k: nat): (era: nat)
      requires k <= |changes|
      ensures era <= k
      ensures era > 0 ==> changes[era - 1].at <= t
      ensures forall i :: era <= i < k ==> t < changes[i].at
    {
      if k == 0 || changes[k - 1].at <= t then k else EraOf(t, k - 1)
    }

    function Era(t: Instant): (era: nat)
      ensures era <= |changes|
    {
      EraOf(t, |changes|)
    }

    function OffsetIn(era: nat): int
      requires era <= |changes|
    {
      if era == 0 then first else changes[era - 1].offset
    }

    function Offset(t: Instant): int {
      OffsetIn(Era(t))
    }

    /** What the local wall clock reads at instant t. */
    function Local(t: Instant): int {
      t + Offset(t)
    }

    function Date(t: Instant): int {
      DateOf(Local(t))
    }
  }

  /** b is the least instant, from two days before the wall time on, at which the
      local clock reads at least the wall time. */
  ghost predicate LeastReaching(z: Zone, wall: int, b: Instant) {
    && wall - TWO_DAYS <= b
    && z.Local(b) >= wall
    && forall t :: wall - TWO_DAYS <= t < b ==> z.Local(t) < wall
  }

  /** The first instant from cursor on, walking zone intervals, that can show the wall time. */
  function Reach(z: Zone, wall: int, cursor: Instant): (b: Instant)
    requires z.Valid()
    decreases |z.changes| - z.Era(cursor)
  {
    var era := z.Era(cursor);
    var candidate := Max(wall - z.OffsetIn(era), cursor);
    if era == |z.changes| || candidate < z.changes[era].at then candidate
    else EraStep(z, cursor); Reach(z, wall, z.changes[era].at)
  }

  /** The instant a local wall time resolves to. */
  function Boundary(z: Zone, wall: int): Instant
    requires z.Valid()
  {
    Reach(z, wall, wall - TWO_DAYS)
  }

  /** Moving to the end of an interval enters exactly the next one. */
  lemma EraStep(z: Zone, t: Instant)
    requires z.Valid() && z.Era(t) < |z.changes|
    ensures t < z.changes[z.Era(t)].at
    ensures z.Era(z.changes[z.Era(t)].at) == z.Era(t) + 1
  {
    EraIs(z, z.changes[z.Era(t)].at, z.Era(t) + 1);
  }

  lemma EraIs(z: Zone, t: Instant, era: nat)
    requires z.Valid() && era <= |z.changes|
    requires era > 0 ==> z.changes[era - 1].at <= t
    requires era < |z.changes| ==> t < z.changes[era].at
    ensures z.Era(t) == era
  {
    var e := z.Era(t);
    assert forall i :: e <= i < |z.changes| ==> t < z.changes[i].at;
    assert forall i :: 0 <= i < e ==> z.changes[i].at <= z.changes[e - 1].at <= t;
  }

  lemma {:induction false} ReachIsLeast(z: Zone, wall: int, cursor: Instant)
    requires z.Valid()
    ensures Reach(z, wall, cursor) >= cursor
    ensures z.Local(Reach(z, wall, cursor)) >= wall
    ensures forall t :: cursor <= t < Reach(z, wall, cursor) ==> z.Local(t) < wall
    decreases |z.changes| - z.Era(cursor)
  {
    var era := z.Era(cursor);
    var candidate := Max(wall - z.OffsetIn(era), cursor);
    if era == |z.changes| || candidate < z.changes[era].at {
      EraIs(z, candidate, era);
      forall t | cursor <= t < candidate ensures z.Local(t) < wall {
        EraIs(z, t, era);
      }
    } else {
      EraStep(z, cursor);
      ReachIsLeast(z, wall, z.changes[era].at);
      forall t | cursor <= t < z.changes[era].at ensures z.Local(t) < wall {
        EraIs(z, t, era);
      }
    }
  }

  /** The resolved boundary is the least instant reaching the wall time, and lies within two days of it. */
  lemma BoundaryIsLeast(z: Zone, wall: int)
    requires z.Valid()
    ensures LeastReaching(z, wall, Boundary(z, wall))
    ensures wall - TWO_DAYS < Boundary(z, wall) < wall + TWO_DAYS
  {
    ReachIsLeast(z, wall, wall - TWO_DAYS);
    var late := wall + TWO_DAYS - 1;
    assert z.Local(late) >= wall;
    assert z.Local(wall - TWO_DAYS) < wall;
  }

  /** The walk over zone intervals, keeping the earliest admissible candidate, resolves the wall time. */
  method ResolveBoundary(z: Zone, wall: int) returns (b: Instant)
    requires z.Valid()
    ensures b == Boundary(z, wall)
    ensures LeastReaching(z, wall, b)
  {
    BoundaryIsLeast(z, wall);
    var limit := wall + TWO_DAYS;
    var best: Option<Instant> := None;
    var cursor := wall - TWO_DAYS;
    var done := false;
    while cursor < limit && !done
      invariant best.None? ==> Reach(z, wall, cursor) == Boundary(z, wall) && !done
      invariant best.Some? ==> best.value == Boundary(z, wall) && (done || best.value < cursor)
      decreases !done, |z.changes| - z.Era(cursor)
    {
      var era := z.Era(cursor);
      var offset := z.OffsetIn(era);
      var last := era == |z.changes|;
      var candidate := Max(wall - offset, cursor);
      if (last || candidate < z.changes[era].at) && (best.None? || candidate < best.value) {
        best := Some(candidate);
      }
      if last {
        done := true;
      } else {
        EraStep(z, cursor);
        cursor := z.changes[era].at;
      }
    }
    if best.None? {
      ReachIsLeast(z, wall, cursor);
      assert false;
    }
    b := best.value;
  }

  /** Later wall times never resolve earlier; in particular an active window never ends before it starts. */
  lemma BoundaryMonotone(z: Zone, early: int, late: int)
    requires z.Valid() && early <= late
    ensures Boundary(z, early) <= Boundary(z, late)
  {
    BoundaryIsLeast(z, early);
    BoundaryIsLeast(z, late);
    assert forall t :: late - TWO_DAYS <= t < Boundary(z, early) ==> z.Local(t) < late;
  }

  function DayStart(z: Zone, date: int): Instant
    requires z.Valid()
  {
    Boundary(z, Midnight(date))
  }

  /** The bounds of the local day an instant falls on. */
  function LocalDay(z: Zone, at: Instant): (Instant, Instant)
    requires z.Valid()
  {
    (DayStart(z, z.Date(at)), DayStart(z, z.Date(at) + 1))
  }

  ghost predicate InDay(z: Zone, date: int, at: Instant)
    requires z.Valid()
  {
    DayStart(z, date) <= at < DayStart(z, date + 1)
  }

  /** Consecutive local days tile time: every instant lies in one of them, and in no other. */
  lemma DaysTile(z: Zone, at: Instant) returns (date: int)
    requires z.Valid()
    ensures InDay(z, date, at)
    ensures forall other :: InDay(z, other, at) ==> other == date
  {
    var near := DateOf(at);
    BoundaryIsLeast(z, Midnight(near - 3));
    BoundaryIsLeast(z, Midnight(near + 3));
    date := FindDay(z, near - 3, near + 3, at);
    forall other | InDay(z, other, at) ensures other == date {
      if other < date {
        DaysDisjoint(z, other, date, at);
      }
      if date < other {
        DaysDisjoint(z, date, other, at);
      }
    }
  }

  lemma {:induction false} FindDay(z: Zone, first: int, last: int, at: Instant) returns (date: int)
    requires z.Valid() && first < last
    requires DayStart(z, first) <= at < DayStart(z, last)
    ensures InDay(z, date, at)
    decreases last - first
  {
    if at < DayStart(z, first + 1) {
      date := first;
    } else {
      date := FindDay(z, first + 1, last, at);
    }
  }

  lemma DaysDisjoint(z: Zone, early: int, late: int, at: Instant)
    requires z.Valid() && early < late && InDay(z, early, at)
    ensures !InDay(z, late, at)
  {
    BoundaryMonotone(z, Midnight(early + 1), Midnight(late));
  }

  /** An instant never precedes its own local day, and it precedes the day's end exactly
      when no earlier instant of the search range already read the next midnight. */
  lemma InOwnDay(z: Zone, at: Instant)
    requires z.Valid()
    ensures LocalDay(z, at).0 <= at
    ensures at < LocalDay(z, at).1 <==>
            forall t :: Midnight(z.Date(at) + 1) - TWO_DAYS <= t < at ==> z.Date(t) <= z.Date(at)
  {
    OwnDayStarts(z, at);
    if at < LocalDay(z, at).1 {
      BeforeOwnEnd(z, at);
    } else {
      AfterOwnEnd(z, at);
    }
  }

  lemma OwnDayStarts(z: Zone, at: Instant)
    requires z.Valid()
    ensures LocalDay(z, at).0 <= at
  {
    BoundaryIsLeast(z, Midnight(z.Date(at)));
    assert z.Local(at) >= Midnight(z.Date(at));
  }

  lemma BeforeOwnEnd(z: Zone, at: Instant)
    requires z.Valid() && at < LocalDay(z, at).1
    ensures forall t :: Midnight(z.Date(at) + 1) - TWO_DAYS <= t < at ==> z.Date(t) <= z.Date(at)
  {
    var date := z.Date(at);
    BoundaryIsLeast(z, Midnight(date + 1));
    forall t | Midnight(date + 1) - TWO_DAYS <= t < at ensures z.Date(t) <= date {
      assert z.Local(t) < Midnight(date + 1);
    }
  }

  /** Past the day's end, that end itself already read a later date. */
  lemma AfterOwnEnd(z: Zone, at: Instant)
    requires z.Valid() && LocalDay(z, at).1 <= at
    ensures exists t :: Midnight(z.Date(at) + 1) - TWO_DAYS <= t < at && z.Date(t) > z.Date(at)
  {
    var date := z.Date(at);
    BoundaryIsLeast(z, Midnight(date + 1));
    var end := LocalDay(z, at).1;
    assert z.Local(at) < Midnight(date + 1) <= z.Local(end);
    assert z.Date(end) > date;
  }
}
