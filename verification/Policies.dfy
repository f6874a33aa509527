/** Persisted generation policy and per-agent settings, with the bounds every quota relies on. */
module Policies {
  import opened Basics
  import opened Zones

  type Id = nat

  /** Durations are whole seconds; the active window is in minutes of the local day. */
  datatype Policy = Policy(
    version: int, zone: Zone, activeStart: int, activeEnd: int,
    scheduledMin: int, scheduledMax: int, minSpacing: int,
    responseMin: int, responseMax: int, sourceMaxAge: int,
    replyBps: int, repostBps: int, quoteBps: int, humanPostBps: int, continuationBps: int,
    cooldown: int, postCap: int, replyCapPerDay: int, replyCapPerConversation: int,
    maxAgents: int, humanCap: int, humanWindow: int,
    maxDepth: int, maxJobs: int, dailyTokens: int)
  {
    predicate Valid() {
      && version == 1
      && zone.Valid()
      && 0 <= activeStart < activeEnd < 1440
      && 0 <= scheduledMin <= scheduledMax <= postCap <= 100
      && 1 <= minSpacing <= 86400
      && 0 <= responseMin <= responseMax < sourceMaxAge <= 604800
      && responseMax <= 86400
      && 0 <= replyBps <= 10000 && 0 <= repostBps <= 10000 && 0 <= quoteBps <= 10000
      && 0 <= humanPostBps <= 10000 && 0 <= continuationBps <= 10000
      && 1 <= cooldown <= 604800
      && 0 <= replyCapPerDay <= 1000 && 0 <= replyCapPerConversation <= 100
      && 0 <= maxAgents <= 10
      && 0 <= humanCap <= 1000 && 1 <= humanWindow <= 86400
      && 0 <= maxDepth <= 10 && 1 <= maxJobs <= 100 && maxDepth < maxJobs
      && 0 <= dailyTokens <= 10_000_000
      && (scheduledMax > 1 ==> (scheduledMax - 1) * minSpacing < (activeEnd - activeStart) * 60)
    }

    function Spacing(): int {
      Seconds(minSpacing)
    }

    /** The instants between which the agent is active on a local date. */
    function Window(date: int): (Instant, Instant)
      requires zone.Valid()
    {
      (Boundary(zone, Midnight(date) + Minutes(activeStart)), Boundary(zone, Midnight(date) + Minutes(activeEnd)))
    }
  }

  datatype Settings = Settings(
    agent: Id, personaVersion: int, enabled: bool, pauseRevision: int, policy: Policy,
    nextPostAt: Option<Instant>, scheduleDate: Option<int>, remaining: int,
    lastPublishedAt: Option<Instant>, updatedAt: Instant)
  {
    predicate Valid() {
      && agent != 0 && 1 <= personaVersion <= 2147483647 && updatedAt != 0 && pauseRevision >= 0
      && policy.Valid()
      && 0 <= remaining <= policy.scheduledMax
      && (scheduleDate.Some? ==> scheduleDate.value >= 0)
      && (remaining > 0 ==> scheduleDate.Some?)
      && (nextPostAt.Some? ==>
            nextPostAt.value != 0 && scheduleDate.Some? && remaining > 0
            && policy.zone.Date(nextPostAt.value) == scheduleDate.value)
      && (lastPublishedAt.Some? ==> lastPublishedAt.value != 0)
    }

    /** A sampled day always knows its next slot. */
    predicate Ready() {
      remaining > 0 ==> nextPostAt.Some?
    }
  }
}
