/** Generation jobs: their validity, lease fencing and the lifecycle contract every update must meet. */
module Jobs {
  import opened Basics
  import opened Policies
  import opened Attempts

  datatype Trigger = Scheduled | ReplyTrigger | RepostTrigger | QuoteTrigger | HumanPost | Continuation

  /** Idempotency keys, by what their text encodes. */
  datatype TriggerKey = SlotKey(slot: Instant) | ActionKey(kind: Trigger, action: Id)

  datatype CooldownKey = CooldownKey(actor: Id, agent: Id, conversation: Id, kind: Trigger)

  datatype JobStatus = Pending | Running | RetryWait | JobSucceeded | Skipped | Cancelled | JobFailed

  /** The columns no update may change, except that removing a repost clears its reference.
      A job is addressed by its row number; uuid only breaks ties between equal creation times. */
  datatype Origin = Origin(
    row: nat, uuid: nat, agent: Id, personaVersion: int, kind: Trigger, key: TriggerKey,
    actor: Option<Id>, cooldown: Option<CooldownKey>,
    sourcePost: Option<Id>, sourceReply: Option<Id>, sourceRepost: Option<Id>,
    output: OutputKind, root: nat, depth: int, maxDepth: int, maxJobs: int,
    createdAt: Instant, expiresAt: Instant)

  datatype Job = Job(
    origin: Origin, status: JobStatus, availableAt: Instant, lease: int, leaseExpiresAt: Option<Instant>,
    resultPost: Option<Id>, resultReply: Option<Id>, published: Option<int>, reason: Code, finishedAt: Option<Instant>)
  {
    predicate Terminal() {
      status == JobSucceeded || status == Skipped || status == Cancelled || status == JobFailed
    }

    predicate Active() {
      status == Pending || status == RetryWait || status == Running
    }

    predicate Valid() {
      && ValidOrigin(origin)
      && origin.createdAt != 0 && origin.createdAt <= availableAt < origin.expiresAt && lease >= 0
      && (status == Pending ==> lease == 0)
      && (status == Running || status == RetryWait || status == JobSucceeded ==> lease > 0)
      && (if status == Running then leaseExpiresAt.Some? && leaseExpiresAt.value > availableAt else leaseExpiresAt.None?)
      && (if Terminal() then finishedAt.Some? && finishedAt.value >= origin.createdAt else finishedAt.None?)
      && (if status == JobSucceeded then
            && published.Some? && availableAt <= finishedAt.value < origin.expiresAt
            && (if origin.output == OutputReply then resultReply.Some? && resultPost.None?
                else resultPost.Some? && resultReply.None?)
          else resultPost.None? && resultReply.None? && published.None?)
      && (if status == Skipped || status == Cancelled || status == JobFailed || status == RetryWait
          then reason != NoCode else reason == NoCode)
    }

    /** A live lease of the expected version: exclusive expiry, and never past the job's own expiry. */
    predicate Leased(version: int, now: Instant) {
      && status == Running && version > 0 && lease == version && leaseExpiresAt.Some?
      && availableAt <= now < leaseExpiresAt.value && now < origin.expiresAt
    }

    predicate RepostGone() {
      origin.kind == RepostTrigger && origin.sourceRepost.None?
    }
  }

  predicate ValidOrigin(o: Origin) {
    && o.uuid != 0 && o.agent != 0 && 1 <= o.personaVersion <= 2147483647
    && 0 <= o.depth <= 10 && (o.depth == 0 <==> o.root == o.row)
    && 0 <= o.maxDepth <= 10 && 1 <= o.maxJobs <= 100 && o.maxDepth < o.maxJobs && o.depth <= o.maxDepth
    && (if o.kind == Scheduled then
          o.actor.None? && o.cooldown.None? && o.sourcePost.None? && o.sourceReply.None? && o.sourceRepost.None?
          && o.output == OutputPost && o.depth == 0
        else
          && o.actor.Some? && o.actor.value != o.agent && o.cooldown.Some? && o.sourcePost.Some? && o.output != OutputPost
          && (match o.kind
              case ReplyTrigger => o.sourceReply.Some? && o.sourceRepost.None?
              case RepostTrigger => o.sourceReply.None?
              case Continuation => o.sourceRepost.None? && o.depth > 0
              case _ => o.sourceReply.None? && o.sourceRepost.None?)
          && (o.kind != Continuation ==> o.depth == 0))
  }

  /** Trusted cleanup of work whose source is gone; it needs no live lease. */
  predicate ValidSourceInvalidation(before: Job, after: Job, version: int, now: Instant) {
    && before.Valid() && after.Valid()
    && before.origin.sourcePost.Some? && before.Active()
    && before.origin == after.origin && version == before.lease && after.lease == before.lease
    && after.leaseExpiresAt.None? && after.availableAt == before.availableAt
    && now >= before.origin.createdAt && after.finishedAt == Some(now)
    && (if now < before.origin.expiresAt then after.status == Cancelled && after.reason == SourceRemoved
        else after.status == Skipped && after.reason == StaleTrigger)
  }

  predicate IsClaim(before: Job, after: Job, now: Instant)
    requires before.Valid()
  {
    after.status == Running
    && (before.status == Pending || before.status == RetryWait
        || (before.status == Running && now >= before.leaseExpiresAt.value))
  }

  /** The part of the lifecycle contract that concerns the lease and the status. */
  predicate ValidMove(before: Job, after: Job, now: Instant)
    requires before.Valid() && after.Valid()
  {
    var expired := now >= before.origin.expiresAt;
    if IsClaim(before, after, now) then
      && before.lease < 0x7fff_ffff_ffff_ffff && after.lease == before.lease + 1
      && now >= before.availableAt && !expired && after.leaseExpiresAt.value > now
    else
      && after.lease == before.lease
      && match before.status
         case Pending => after.status == Skipped || after.status == Cancelled || after.status == JobFailed
         case RetryWait => after.status == Skipped || after.status == Cancelled || after.status == JobFailed
         case JobFailed => after.status == RetryWait && before.lease != 0 && !expired
         case Running =>
           && (now < before.leaseExpiresAt.value
               || (expired && after.status == Skipped && after.reason == StaleTrigger)
               || (before.RepostGone() && !expired && after.status == Cancelled && after.reason == SourceRemoved))
           && after.status != Pending
           && (after.status == Running ==> after.leaseExpiresAt.value > before.leaseExpiresAt.value && !expired)
         case _ => true
  }

  /** The lifecycle contract: what one update under the observed fence may do to a job. */
  predicate ValidTransition(before: Job, after: Job, version: int, now: Instant, attempt: Option<Attempt>) {
    && before.Valid() && after.Valid()
    && version == before.lease && before.origin == after.origin
    && before.status != JobSucceeded && before.status != Skipped && before.status != Cancelled
    && now >= before.origin.createdAt && (before.finishedAt.Some? ==> now >= before.finishedAt.value)
    && (before.RepostGone() ==>
          after.status == Cancelled
          || (after.status == Skipped && after.reason == StaleTrigger && now >= before.origin.expiresAt))
    && (after.finishedAt.Some? ==> after.finishedAt.value == now)
    && ValidMove(before, after, now)
    && (if after.status == RetryWait then after.availableAt >= now && now < before.origin.expiresAt
        else after.availableAt == before.availableAt)
    && (now >= before.origin.expiresAt ==> after.status == Skipped && after.reason == StaleTrigger)
    && (if after.status == JobSucceeded then
          && before.Leased(version, now)
          && attempt.Some? && attempt.value.Valid()
          && attempt.value.number == after.published.value && attempt.value.job == after.origin.row
          && attempt.value.lease == after.lease && attempt.value.status == Succeeded
          && attempt.value.startedAt >= before.availableAt && attempt.value.finishedAt.value <= now
        else attempt.None?)
  }

  /** Children of a chain inherit the root's limits exactly, one level below their parent. */
  predicate ValidContinuation(root: Job, parent: Job, child: Job) {
    && root.Valid() && parent.Valid() && child.Valid()
    && root.origin.depth == 0 && parent.origin.root == root.origin.row && child.origin.root == root.origin.row
    && child.origin.kind == Continuation && child.origin.depth == parent.origin.depth + 1
    && parent.origin.maxDepth == root.origin.maxDepth && parent.origin.maxJobs == root.origin.maxJobs
    && child.origin.maxDepth == root.origin.maxDepth && child.origin.maxJobs == root.origin.maxJobs
  }
}
