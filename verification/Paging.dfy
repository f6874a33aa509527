/** Keyset pages: following cursors over a changing table lists every surviving row exactly once, in order, and ends. */
module Paging {
  import opened Basics

  /** The feed's sort key. Under newest order every score is zero; replies use time and id alone. */
  datatype Position = Position(score: int, time: Instant, kind: int, id: nat)

  datatype Order = OldestFirst | NewestFirst

  predicate Less(a: Position, b: Position) {
    || a.score < b.score
    || (a.score == b.score && a.time < b.time)
    || (a.score == b.score && a.time == b.time && a.kind < b.kind)
    || (a.score == b.score && a.time == b.time && a.kind == b.kind && a.id < b.id)
  }

  /** a is listed before b. */
  predicate Ahead(order: Order, a: Position, b: Position) {
    if order == OldestFirst then Less(a, b) else Less(b, a)
  }

  /** The rows one request may list: visible, not above the ceiling, strictly after the cursor. */
  function Visible(order: Order, table: set<Position>, ceiling: Instant, cursor: Option<Position>): set<Position> {
    set p | p in table && p.time <= ceiling && (cursor.Some? ==> Ahead(order, cursor.value, p))
  }

  ghost predicate InOrder(order: Order, rows: seq<Position>) {
    forall i, j :: 0 <= i < j < |rows| ==> Ahead(order, rows[i], rows[j])
  }

  ghost function Elements(rows: seq<Position>): set<Position> {
    set p | p in rows
  }

  ghost predicate First(order: Order, rows: set<Position>, p: Position) {
    p in rows && forall q :: q in rows && q != p ==> Ahead(order, p, q)
  }

  lemma Total(order: Order, a: Position, b: Position)
    ensures a == b || Ahead(order, a, b) || Ahead(order, b, a)
    ensures !(Ahead(order, a, b) && Ahead(order, b, a)) && !Ahead(order, a, a)
  {
  }

  lemma Transitive(order: Order, a: Position, b: Position, c: Position)
    requires Ahead(order, a, b) && Ahead(order, b, c)
    ensures Ahead(order, a, c)
  {
  }

  lemma {:induction false} FirstExists(order: Order, rows: set<Position>)
    requires rows != {}
    ensures exists p :: First(order, rows, p)
    decreases rows
  {
    hide Ahead;
    var q :| q in rows;
    if rows == {q} {
      assert First(order, rows, q);
    } else {
      FirstExists(order, rows - {q});
      var p :| First(order, rows - {q}, p);
      Total(order, p, q);
      if Ahead(order, p, q) {
        assert First(order, rows, p);
      } else {
        forall r | r in rows && r != q ensures Ahead(order, q, r) {
          if r != p {
            Transitive(order, q, p, r);
          }
        }
        assert First(order, rows, q);
      }
    }
  }

  ghost function Head(order: Order, rows: set<Position>): (p: Position)
    requires rows != {}
    ensures First(order, rows, p)
  {
    FirstExists(order, rows);
    var p :| First(order, rows, p);
    p
  }

  /** The rows of a set in listing order. */
  ghost function Ranked(order: Order, rows: set<Position>): seq<Position>
    decreases rows
  {
    if rows == {} then [] else [Head(order, rows)] + Ranked(order, rows - {Head(order, rows)})
  }

  lemma HeadFirst(order: Order, rows: set<Position>)
    requires rows != {}
    ensures Head(order, rows) in rows && forall q :: q in rows - {Head(order, rows)} ==> Ahead(order, Head(order, rows), q)
  {
    hide Ahead;
  }

  lemma Prepended(order: Order, p: Position, rest: seq<Position>)
    requires InOrder(order, rest) && forall q :: q in Elements(rest) ==> Ahead(order, p, q)
    ensures InOrder(order, [p] + rest) && Elements([p] + rest) == {p} + Elements(rest)
  {
    hide Ahead;
    forall i | 0 <= i < |rest| ensures Ahead(order, p, rest[i]) {
      assert rest[i] in Elements(rest);
    }
  }

  lemma {:induction false} RankedFacts(order: Order, rows: set<Position>)
    ensures InOrder(order, Ranked(order, rows)) && Elements(Ranked(order, rows)) == rows && |Ranked(order, rows)| == |rows|
    decreases rows
  {
    hide Ahead, Head, First;
    if rows != {} {
      HeadFirst(order, rows);
      var p := Head(order, rows);
      var rest := Ranked(order, rows - {p});
      RankedFacts(order, rows - {p});
      Prepended(order, p, rest);
    }
  }

  /** Order and contents determine a listing. */
  lemma {:induction false} OneListing(order: Order, a: seq<Position>, b: seq<Position>)
    requires InOrder(order, a) && InOrder(order, b) && Elements(a) == Elements(b)
    ensures a == b
    decreases |a|
  {
    hide Ahead;
    if a == [] {
      NoElements();
      NothingListed(b);
    } else {
      SameFront(order, a, b);
      FrontOnce(order, a);
      FrontOnce(order, b);
      OneListing(order, a[1..], b[1..]);
    }
  }

  lemma NothingListed(rows: seq<Position>)
    ensures Elements(rows) == {} <==> rows == []
  {
    if rows != [] {
      assert rows[0] in Elements(rows);
    }
  }

  lemma SameFront(order: Order, a: seq<Position>, b: seq<Position>)
    requires InOrder(order, a) && InOrder(order, b) && Elements(a) == Elements(b) && a != []
    ensures b != [] && a[0] == b[0]
  {
    hide Ahead;
    assert a[0] in Elements(b);
    assert b[0] in Elements(a);
    var i :| 0 <= i < |a| && a[i] == b[0];
    var j :| 0 <= j < |b| && b[j] == a[0];
    Total(order, a[0], b[0]);
  }

  lemma FrontOnce(order: Order, a: seq<Position>)
    requires InOrder(order, a) && a != []
    ensures InOrder(order, a[1..]) && Elements(a[1..]) == Elements(a) - {a[0]}
  {
    hide Ahead;
    forall i | 0 < i < |a| ensures a[i] != a[0] {
      Total(order, a[0], a[i]);
    }
    forall p ensures p in Elements(a[1..]) <==> p in Elements(a) && p != a[0] {
      if p in Elements(a) && p != a[0] {
        var i :| 0 <= i < |a| && a[i] == p;
        assert a[1..][i - 1] == p;
      }
    }
  }

  // ---- Pages ----

  datatype Page = Page(items: seq<Position>, next: Option<Position>)

  /** Rows are fetched one beyond the limit; a row too many means there is a next page. */
  function Cut(rows: seq<Position>, limit: nat): Page
    requires limit >= 1
  {
    if |rows| > limit then Page(rows[..limit], Some(rows[limit - 1])) else Page(rows, None)
  }

  method BuildPage(rows: seq<Position>, limit: nat) returns (page: Page)
    requires limit >= 1
    ensures page == Cut(rows, limit)
  {
    var items, next := [], None;
    for i := 0 to |rows|
      invariant items == rows[..i]
    {
      items := items + [rows[i]];
    }
    if |items| > limit {
      items := items[..limit];
      next := Some(items[|items| - 1]);
    }
    page := Page(items, next);
  }

  /** A preview keeps two of up to three fetched rows; the third only proves there are more. */
  method BuildPreview(rows: seq<Position>) returns (preview: Page)
    requires |rows| <= 3
    ensures preview == Cut(rows, 2)
  {
    var items, next := [], None;
    for n := 0 to |rows|
      invariant items == rows[..Min(n, 2)]
      invariant next == if n <= 2 then None else Some(rows[1])
    {
      if n < 2 {
        items := items + [rows[n]];
      } else {
        next := Some(items[|items| - 1]);
      }
    }
    preview := Page(items, next);
  }

  ghost function Fetched(order: Order, table: set<Position>, ceiling: Instant, cursor: Option<Position>, count: nat): seq<Position> {
    var rows := Ranked(order, Visible(order, table, ceiling, cursor));
    if |rows| <= count then rows else rows[..count]
  }

  ghost function PageOf(order: Order, table: set<Position>, ceiling: Instant, cursor: Option<Position>, limit: nat): Page
    requires limit >= 1
  {
    Cut(Fetched(order, table, ceiling, cursor, limit + 1), limit)
  }

  /** A page is the front of its listing, and the rest is what lies after its cursor. */
  lemma PageFacts(order: Order, table: set<Position>, ceiling: Instant, cursor: Option<Position>, limit: nat)
    requires limit >= 1
    ensures var page := PageOf(order, table, ceiling, cursor, limit);
            var rows := Ranked(order, Visible(order, table, ceiling, cursor));
            && (page.next.None? ==> page.items == rows)
            && (page.next.Some? ==>
                  && |page.items| == limit < |rows| && page.items == rows[..limit] && page.next.value == rows[limit - 1]
                  && Ranked(order, Visible(order, table, ceiling, page.next)) == rows[limit..])
  {
    hide Ahead, Ranked, Visible, InOrder;
    var page := PageOf(order, table, ceiling, cursor, limit);
    var rows := Ranked(order, Visible(order, table, ceiling, cursor));
    if |rows| > limit {
      assert rows[..limit + 1][..limit] == rows[..limit];
      AfterCursor(order, table, ceiling, cursor, limit);
    }
  }

  lemma AfterCursor(order: Order, table: set<Position>, ceiling: Instant, cursor: Option<Position>, k: nat)
    requires 1 <= k < |Ranked(order, Visible(order, table, ceiling, cursor))|
    ensures var rows := Ranked(order, Visible(order, table, ceiling, cursor));
            Ranked(order, Visible(order, table, ceiling, Some(rows[k - 1]))) == rows[k..]
  {
    hide Ahead, Ranked, InOrder;
    var seen := Visible(order, table, ceiling, cursor);
    var rows := Ranked(order, seen);
    var rest := Visible(order, table, ceiling, Some(rows[k - 1]));
    RankedFacts(order, seen);
    RankedFacts(order, rest);
    RestAfter(order, rows, k);
    assert rows[k - 1] in Elements(rows);
    forall p | p in rest ensures p in seen {
      if cursor.Some? {
        Transitive(order, cursor.value, rows[k - 1], p);
      }
    }
    assert Elements(rows[k..]) == rest;
    OneListing(order, Ranked(order, rest), rows[k..]);
  }

  /** In a listing, the rows from k on are exactly those after row k - 1. */
  lemma RestAfter(order: Order, rows: seq<Position>, k: nat)
    requires InOrder(order, rows) && 1 <= k < |rows|
    ensures InOrder(order, rows[k..])
    ensures forall p :: p in Elements(rows[k..]) <==> p in Elements(rows) && Ahead(order, rows[k - 1], p)
  {
    hide Ahead;
    assert forall i :: 0 <= i < |rows[k..]| ==> rows[k..][i] == rows[k + i];
    forall p | p in Elements(rows) ensures p in Elements(rows[k..]) <==> Ahead(order, rows[k - 1], p) {
      var i :| 0 <= i < |rows| && rows[i] == p;
      Total(order, rows[k - 1], p);
      if i >= k {
        assert rows[k..][i - k] == p;
      }
    }
  }

  // ---- Following cursors ----

  /** Requests made one after the other, each against its own snapshot and with its own limit. */
  datatype Request = Request(table: set<Position>, limit: nat)

  predicate Requests(rs: seq<Request>) {
    forall i :: 0 <= i < |rs| ==> rs[i].limit >= 1
  }

  /** Between requests rows are only deleted, or added above the ceiling. */
  predicate Settling(rs: seq<Request>, ceiling: Instant) {
    forall i, p :: 0 < i < |rs| && p in rs[i].table && p.time <= ceiling ==> p in rs[i - 1].table
  }

  ghost function Follow(order: Order, rs: seq<Request>, ceiling: Instant, cursor: Option<Position>): seq<Position>
    requires Requests(rs)
  {
    if rs == [] then []
    else
      var page := PageOf(order, rs[0].table, ceiling, cursor, rs[0].limit);
      page.items + (if page.next.None? then [] else Follow(order, rs[1..], ceiling, page.next))
  }

  /** Whether some request was answered without a next cursor. */
  ghost predicate Ends(order: Order, rs: seq<Request>, ceiling: Instant, cursor: Option<Position>)
    requires Requests(rs)
  {
    rs != []
    && var page := PageOf(order, rs[0].table, ceiling, cursor, rs[0].limit);
       page.next.None? || Ends(order, rs[1..], ceiling, page.next)
  }

  lemma SettlingTail(rs: seq<Request>, ceiling: Instant)
    requires Settling(rs, ceiling) && rs != []
    ensures Settling(rs[1..], ceiling)
    ensures |rs| > 1 ==> forall p :: p in rs[1].table && p.time <= ceiling ==> p in rs[0].table
  {
    forall i, p | 0 < i < |rs[1..]| && p in rs[1..][i].table && p.time <= ceiling ensures p in rs[1..][i - 1].table {
      assert rs[1..][i] == rs[i + 1] && rs[1..][i - 1] == rs[i];
    }
  }

  /** The listing is in order without repetition, lists only rows visible at the start, and once a request has no next
      cursor it has listed every row that survived to the last snapshot. */
  lemma {:induction false} FollowLists(order: Order, rs: seq<Request>, ceiling: Instant, cursor: Option<Position>)
    requires Requests(rs) && Settling(rs, ceiling) && rs != []
    ensures InOrder(order, Follow(order, rs, ceiling, cursor))
    ensures Elements(Follow(order, rs, ceiling, cursor)) <= Visible(order, rs[0].table, ceiling, cursor)
    ensures Ends(order, rs, ceiling, cursor) ==>
              Visible(order, rs[|rs| - 1].table, ceiling, cursor) <= Elements(Follow(order, rs, ceiling, cursor))
    decreases |rs|
  {
    hide Ahead, Ranked, PageOf, InOrder, Settling, Visible, Elements;
    var seen := Visible(order, rs[0].table, ceiling, cursor);
    var rows := Ranked(order, seen);
    var limit := rs[0].limit;
    var page := PageOf(order, rs[0].table, ceiling, cursor, limit);
    PageFacts(order, rs[0].table, ceiling, cursor, limit);
    RankedFacts(order, seen);
    LastSurvives(order, rs, ceiling, cursor);
    if page.next.None? {
      assert Follow(order, rs, ceiling, cursor) == rows;
    } else {
      var rest := Follow(order, rs[1..], ceiling, page.next);
      assert Ends(order, rs, ceiling, cursor) <==> Ends(order, rs[1..], ceiling, page.next);
      assert Follow(order, rs, ceiling, cursor) == rows[..limit] + rest;
      var left := Visible(order, rs[0].table, ceiling, page.next);
      RankedFacts(order, left);
      if |rs| > 1 {
        SettlingTail(rs, ceiling);
        assert rs[1..][|rs| - 2] == rs[|rs| - 1];
        FollowLists(order, rs[1..], ceiling, page.next);
        SmallerTable(order, rs[1].table, rs[0].table, ceiling, page.next);
        assert Visible(order, rs[|rs| - 1].table, ceiling, page.next) == Visible(order, rs[1..][|rs[1..]| - 1].table, ceiling, page.next);
        SurvivorsSplit(order, rs[|rs| - 1].table, rs[0].table, ceiling, cursor, page.next, rows, limit);
      } else {
        NoElements();
      }
      Joined(order, rows, limit, rest);
    }
  }

  lemma NoElements()
    ensures Elements([]) == {} && forall order :: InOrder(order, [])
  {
  }

  lemma SmallerTable(order: Order, small: set<Position>, large: set<Position>, ceiling: Instant, cursor: Option<Position>)
    requires forall p :: p in small && p.time <= ceiling ==> p in large
    ensures Visible(order, small, ceiling, cursor) <= Visible(order, large, ceiling, cursor)
  {
    hide Ahead;
  }

  /** A survivor was on the page or lies after its cursor. */
  lemma SurvivorsSplit(order: Order, last: set<Position>, first: set<Position>, ceiling: Instant, cursor: Option<Position>,
                       next: Option<Position>, rows: seq<Position>, k: nat)
    requires InOrder(order, rows) && 1 <= k < |rows| && next == Some(rows[k - 1])
    requires Elements(rows) == Visible(order, first, ceiling, cursor)
    requires Visible(order, last, ceiling, cursor) <= Visible(order, first, ceiling, cursor)
    ensures Visible(order, last, ceiling, cursor) <= Elements(rows[..k]) + Visible(order, last, ceiling, next)
  {
    hide Ahead;
    forall p | p in Visible(order, last, ceiling, cursor) ensures p in Elements(rows[..k]) + Visible(order, last, ceiling, next) {
      assert p in Elements(rows);
      var i :| 0 <= i < |rows| && rows[i] == p;
      if i < k {
        assert rows[..k][i] == p;
      }
    }
  }

  /** The front of a listing followed by an ordered part of what lies after it. */
  lemma Joined(order: Order, rows: seq<Position>, k: nat, rest: seq<Position>)
    requires InOrder(order, rows) && 1 <= k < |rows| && InOrder(order, rest) && Elements(rest) <= Elements(rows[k..])
    ensures InOrder(order, rows[..k] + rest)
    ensures Elements(rows[..k] + rest) == Elements(rows[..k]) + Elements(rest) <= Elements(rows)
  {
    hide Ahead;
    forall j | 0 <= j < |rest| ensures rest[j] in Elements(rows[k..]) {
      assert rest[j] in Elements(rest);
    }
    forall i, j | 0 <= i < j < |rows[..k] + rest| ensures Ahead(order, (rows[..k] + rest)[i], (rows[..k] + rest)[j]) {
      if i < k <= j {
        var p := rest[j - k];
        var m :| 0 <= m < |rows[k..]| && rows[k..][m] == p;
        assert rows[k + m] == p;
      }
    }
    assert rows == rows[..k] + rows[k..];
  }

  /** Whatever is still there at the end was there at the start. */
  lemma {:induction false} LastSurvives(order: Order, rs: seq<Request>, ceiling: Instant, cursor: Option<Position>)
    requires Settling(rs, ceiling) && rs != []
    ensures Visible(order, rs[|rs| - 1].table, ceiling, cursor) <= Visible(order, rs[0].table, ceiling, cursor)
    decreases |rs|
  {
    if |rs| > 1 {
      SettlingTail(rs, ceiling);
      LastSurvives(order, rs[1..], ceiling, cursor);
    }
  }

  /** Following ends: one request more than there were rows always suffices, whatever their limits. */
  lemma {:induction false} FollowEnds(order: Order, rs: seq<Request>, ceiling: Instant, cursor: Option<Position>)
    requires Requests(rs) && Settling(rs, ceiling) && rs != []
    requires |rs| > |Visible(order, rs[0].table, ceiling, cursor)|
    ensures Ends(order, rs, ceiling, cursor)
    decreases |rs|
  {
    hide Ahead, Ranked, PageOf, InOrder, Settling, Visible, Elements;
    var seen := Visible(order, rs[0].table, ceiling, cursor);
    var page := PageOf(order, rs[0].table, ceiling, cursor, rs[0].limit);
    PageFacts(order, rs[0].table, ceiling, cursor, rs[0].limit);
    RankedFacts(order, seen);
    if page.next.Some? {
      var left := Visible(order, rs[0].table, ceiling, page.next);
      RankedFacts(order, left);
      assert |left| < |seen| && |rs| > 1;
      SettlingTail(rs, ceiling);
      SmallerTable(order, rs[1].table, rs[0].table, ceiling, page.next);
      SubsetSize(Visible(order, rs[1].table, ceiling, page.next), left);
      FollowEnds(order, rs[1..], ceiling, page.next);
    }
  }

  /** On a table that does not change, following cursors lists exactly the whole order after the first cursor. */
  lemma {:induction false} FollowUnchanged(order: Order, table: set<Position>, rs: seq<Request>, ceiling: Instant, cursor: Option<Position>)
    requires Requests(rs) && rs != [] && (forall i :: 0 <= i < |rs| ==> rs[i].table == table)
    requires Ends(order, rs, ceiling, cursor)
    ensures Follow(order, rs, ceiling, cursor) == Ranked(order, Visible(order, table, ceiling, cursor))
    decreases |rs|
  {
    hide Ahead, Ranked, PageOf, Visible;
    var page := PageOf(order, table, ceiling, cursor, rs[0].limit);
    PageFacts(order, table, ceiling, cursor, rs[0].limit);
    if page.next.Some? {
      FollowUnchanged(order, table, rs[1..], ceiling, page.next);
      var rows := Ranked(order, Visible(order, table, ceiling, cursor));
      assert rows == rows[..rs[0].limit] + rows[rs[0].limit..];
    }
  }

  /** A two-item reply preview followed by its continuation is the full reply order. */
  lemma {:induction false} PreviewContinues(table: set<Position>, ceiling: Instant, rs: seq<Request>)
    requires Requests(rs) && rs != [] && (forall i :: 0 <= i < |rs| ==> rs[i].table == table)
    requires var preview := Cut(Fetched(OldestFirst, table, ceiling, None, 3), 2);
             preview.next.Some? ==> Ends(OldestFirst, rs, ceiling, preview.next)
    ensures var preview := Cut(Fetched(OldestFirst, table, ceiling, None, 3), 2);
            preview.items + (if preview.next.None? then [] else Follow(OldestFirst, rs, ceiling, preview.next))
            == Ranked(OldestFirst, Visible(OldestFirst, table, ceiling, None))
  {
    hide Ahead, Ranked, Visible, Follow, Ends, Cut, Fetched;
    var preview := PageOf(OldestFirst, table, ceiling, None, 2);
    var rows := Ranked(OldestFirst, Visible(OldestFirst, table, ceiling, None));
    PageFacts(OldestFirst, table, ceiling, None, 2);
    if preview.next.Some? {
      FollowUnchanged(OldestFirst, table, rs, ceiling, preview.next);
      assert rows == rows[..2] + rows[2..];
    }
  }
}
