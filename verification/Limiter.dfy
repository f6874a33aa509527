/** The bounded, swept fixed-window rate limiter against an unbounded limiter that forgets nothing. */
module Limiter {
  import opened Basics

  type Client = string

  datatype Window = Window(used: int, expires: Instant)

  datatype Config = Config(requests: int, window: int, maxClients: int) {
    predicate Valid() {
      requests >= 0 && window > 0 && maxClients >= 0
    }
  }

  datatype Table = Table(clients: map<Client, Window>, nextSweep: Instant)

  const CLEANUP: int := 1_000_000

  function Swept(clients: map<Client, Window>, now: Instant): map<Client, Window> {
    map client | client in clients && now < clients[client].expires :: clients[client]
  }

  function AfterSweep(t: Table, now: Instant): Table {
    if now >= t.nextSweep then Table(Swept(t.clients, now), now + CLEANUP) else t
  }

  predicate FullFor(c: Config, t: Table, key: Client) {
    key !in t.clients && |t.clients| >= c.maxClients
  }

  /** The window a call is counted in: the current one, or a fresh one once that has expired. */
  function Current(c: Config, clients: map<Client, Window>, key: Client, now: Instant): Window {
    if key in clients && now < clients[key].expires then clients[key] else Window(0, now + c.window)
  }

  /** One call of a limiter that never refuses a new key: zero on admission, otherwise the delay. */
  function Count(c: Config, clients: map<Client, Window>, key: Client, now: Instant): (map<Client, Window>, int) {
    var w := Current(c, clients, key, now);
    if w.used >= c.requests then (clients, w.expires - now)
    else (clients[key := w.(used := w.used + 1)], 0)
  }

  function Allow(c: Config, t: Table, key: Client, now: Instant): (Table, int) {
    var s := AfterSweep(t, now);
    if FullFor(c, s, key) then (s, s.nextSweep - now)
    else
      var (clients, delay) := Count(c, s.clients, key, now);
      (s.(clients := clients), delay)
  }

  class RateLimiter {
    const config: Config
    var clients: map<Client, Window>
    var nextSweep: Instant

    function State(): Table
      reads this
    {
      Table(clients, nextSweep)
    }

    constructor (config: Config)
      ensures this.config == config && State() == Table(map[], 0)
    {
      this.config := config;
      clients, nextSweep := map[], 0;
    }

    /** Delete every expired window, one client at a time. */
    method Sweep(now: Instant)
      modifies this`clients
      ensures clients == Swept(old(clients), now)
    {
      var rest := clients.Keys;
      while rest != {}
        invariant rest <= old(clients).Keys
        invariant clients == map k | k in old(clients) && (k in rest || now < old(clients)[k].expires) :: old(clients)[k]
        decreases |rest|
      {
        var client :| client in rest;
        if now >= clients[client].expires {
          clients := clients - {client};
        }
        rest := rest - {client};
      }
    }

    method AllowCall(key: Client, now: Instant) returns (delay: int)
      modifies this
      ensures (State(), delay) == Allow(config, old(State()), key, now)
    {
      if now >= nextSweep {
        Sweep(now);
        nextSweep := now + CLEANUP;
      }
      if key !in clients && |clients| >= config.maxClients {
        return nextSweep - now;
      }
      var w := if key in clients then clients[key] else Window(0, 0);
      if key !in clients || now >= w.expires {
        w := Window(0, now + config.window);
      }
      if w.used >= config.requests {
        return w.expires - now;
      }
      w := w.(used := w.used + 1);
      clients := clients[key := w];
      delay := 0;
    }
  }

  // ---- Runs of calls ----

  datatype Call = Call(key: Client, now: Instant)

  /** Calls in the order the lock serves them, none earlier than the one before. */
  predicate InOrder(calls: seq<Call>) {
    forall i, j :: 0 <= i < j < |calls| ==> calls[i].now <= calls[j].now
  }

  const EMPTY: Table := Table(map[], 0)

  function TableAfter(c: Config, calls: seq<Call>): Table {
    if calls == [] then EMPTY
    else Allow(c, TableAfter(c, calls[..|calls| - 1]), calls[|calls| - 1].key, calls[|calls| - 1].now).0
  }

  /** Whether the last call was refused because the table was full. */
  predicate TurnedAway(c: Config, calls: seq<Call>)
    requires calls != []
  {
    var last := calls[|calls| - 1];
    FullFor(c, AfterSweep(TableAfter(c, calls[..|calls| - 1]), last.now), last.key)
  }

  function Delay(c: Config, calls: seq<Call>): int
    requires calls != []
  {
    Allow(c, TableAfter(c, calls[..|calls| - 1]), calls[|calls| - 1].key, calls[|calls| - 1].now).1
  }

  /** The reference limiter: unbounded, never swept, and shown only the calls that were not turned away. */
  function ReferenceAfter(c: Config, calls: seq<Call>): map<Client, Window> {
    if calls == [] then map[]
    else
      var before := ReferenceAfter(c, calls[..|calls| - 1]);
      if TurnedAway(c, calls) then before else Count(c, before, calls[|calls| - 1].key, calls[|calls| - 1].now).0
  }

  function ReferenceDelay(c: Config, calls: seq<Call>): int
    requires calls != []
  {
    Count(c, ReferenceAfter(c, calls[..|calls| - 1]), calls[|calls| - 1].key, calls[|calls| - 1].now).1
  }

  /** The table holds what the reference holds, except for windows expired by the clock. */
  ghost predicate Simulates(t: Table, reference: map<Client, Window>, clock: Instant) {
    && (forall k :: k in t.clients ==> k in reference && reference[k] == t.clients[k])
    && (forall k :: k in reference && k !in t.clients ==> reference[k].expires <= clock)
  }

  lemma {:induction false} Simulated(c: Config, calls: seq<Call>, now: Instant)
    requires InOrder(calls) && (calls != [] ==> calls[|calls| - 1].now <= now)
    ensures Simulates(TableAfter(c, calls), ReferenceAfter(c, calls), now)
    decreases |calls|
  {
    if calls != [] {
      var n := |calls| - 1;
      Simulated(c, calls[..n], calls[n].now);
    }
  }

  /** Every call that is not turned away for a full table gets the answer of the unbounded limiter. */
  lemma SameAnswers(c: Config, calls: seq<Call>)
    requires InOrder(calls) && calls != [] && !TurnedAway(c, calls)
    ensures Delay(c, calls) == ReferenceDelay(c, calls)
  {
    var n := |calls| - 1;
    Simulated(c, calls[..n], calls[n].now);
  }

  lemma {:induction false} Bounded(c: Config, calls: seq<Call>)
    requires c.Valid()
    ensures |TableAfter(c, calls).clients| <= c.maxClients
    decreases |calls|
  {
    if calls != [] {
      var n := |calls| - 1;
      Bounded(c, calls[..n]);
      var t := TableAfter(c, calls[..n]);
      SweptSmaller(t.clients, calls[n].now);
      var s := AfterSweep(t, calls[n].now);
      var w := Current(c, s.clients, calls[n].key, calls[n].now);
      PutSize(s.clients, calls[n].key, w.(used := w.used + 1));
    }
  }

  lemma PutSize(clients: map<Client, Window>, key: Client, w: Window)
    ensures |clients[key := w]| <= |clients| + (if key in clients then 0 else 1)
  {
    assert clients[key := w].Keys == clients.Keys + {key};
  }

  lemma SweptSmaller(clients: map<Client, Window>, now: Instant)
    ensures |Swept(clients, now)| <= |clients|
  {
    SubsetSize(Swept(clients, now).Keys, clients.Keys);
  }

  /** A refusal, whether for the quota or for a full table, always asks for a positive delay. */
  lemma RefusalsWait(c: Config, calls: seq<Call>)
    requires c.Valid() && calls != []
    ensures Delay(c, calls) >= 0
    ensures Delay(c, calls) == 0 <==>
              && !TurnedAway(c, calls)
              && var last := calls[|calls| - 1];
                 Current(c, AfterSweep(TableAfter(c, calls[..|calls| - 1]), last.now).clients, last.key, last.now).used < c.requests
    ensures TurnedAway(c, calls) && calls[|calls| - 1].now >= TableAfter(c, calls[..|calls| - 1]).nextSweep ==> Delay(c, calls) == 1_000_000
  {
  }

  // ---- Admissions in an interval ----

  predicate Counted(call: Call, key: Client, low: Instant, high: Instant) {
    call.key == key && low <= call.now <= high
  }

  /** How many calls of a key the limiter admitted between two instants. */
  function AdmittedBetween(c: Config, calls: seq<Call>, key: Client, low: Instant, high: Instant): nat {
    if calls == [] then 0
    else
      AdmittedBetween(c, calls[..|calls| - 1], key, low, high)
      + (if Delay(c, calls) == 0 && Counted(calls[|calls| - 1], key, low, high) then 1 else 0)
  }

  /** What the reference's window of the key says of the admissions in an interval shorter than the window. */
  ghost predicate Tallied(c: Config, reference: map<Client, Window>, key: Client, low: Instant, admitted: nat) {
    if key !in reference then admitted == 0
    else
      var w := reference[key];
      var start := w.expires - c.window;
      && 0 <= w.used <= c.requests
      && (admitted > 0 ==> w.expires > low)
      && (if start <= low then admitted <= w.used
          else if start <= low + c.window then admitted <= c.requests + w.used
          else admitted <= 2 * c.requests)
  }

  lemma {:induction false} StartedBefore(c: Config, calls: seq<Call>, now: Instant)
    requires InOrder(calls) && (calls != [] ==> calls[|calls| - 1].now <= now)
    ensures forall k :: k in ReferenceAfter(c, calls) ==> ReferenceAfter(c, calls)[k].expires - c.window <= now
    decreases |calls|
  {
    hide TurnedAway;
    if calls != [] {
      StartedBefore(c, calls[..|calls| - 1], calls[|calls| - 1].now);
    }
  }

  lemma {:induction false} RunTallied(c: Config, calls: seq<Call>, key: Client, low: Instant, high: Instant)
    requires c.Valid() && InOrder(calls) && high - low < c.window
    ensures Tallied(c, ReferenceAfter(c, calls), key, low, AdmittedBetween(c, calls, key, low, high))
    decreases |calls|
  {
    if calls != [] {
      var n := |calls| - 1;
      RunTallied(c, calls[..n], key, low, high);
      StartedBefore(c, calls[..n], calls[n].now);
      RefusalsWait(c, calls);
      if !TurnedAway(c, calls) {
        SameAnswers(c, calls);
        CallTallied(c, ReferenceAfter(c, calls[..n]), calls[n], key, low, high, AdmittedBetween(c, calls[..n], key, low, high));
      }
    }
  }

  lemma CallTallied(c: Config, reference: map<Client, Window>, call: Call, key: Client, low: Instant, high: Instant, admitted: nat)
    requires c.Valid() && high - low < c.window && Tallied(c, reference, key, low, admitted)
    requires key in reference && call.key == key ==> reference[key].expires - c.window <= call.now
    ensures var (after, delay) := Count(c, reference, call.key, call.now);
            Tallied(c, after, key, low, admitted + (if delay == 0 && Counted(call, key, low, high) then 1 else 0))
  {
  }

  /** In any interval shorter than the window, one key is admitted at most twice its quota. */
  lemma AtMostTwice(c: Config, calls: seq<Call>, key: Client, low: Instant, high: Instant)
    requires c.Valid() && InOrder(calls) && high - low < c.window
    ensures AdmittedBetween(c, calls, key, low, high) <= 2 * c.requests
  {
    RunTallied(c, calls, key, low, high);
  }
}
