/** Provider attempts: one durable reservation before one provider call, its outcome and its accounting. */
module Attempts {
  import opened Basics

  /** The bounded codes stored on jobs and attempts; NoCode is the empty code. */
  datatype Code =
    | NoCode
    | Transient | RateLimited | Timeout | InvalidOutput | UnsafeOutput | RepeatedOutput
    | Credentials | Configuration | AccountingUnsupported | ExecutionCancelled | Permanent
    | LeaseLost | StaleTrigger | SourceRemoved | PolicyDenied | PolicyDisabled | BudgetExhausted
    | AttemptLimit | AlreadyAdmitted | RecoveryRequired | OutcomeUnavailable | OperatorRetry | ContextRejected | PublicationDenied
    | NotRelevant | InsufficientContext | UnsafeRequest | Repetition | Unlisted(code: nat)
  {
    /** The failures a provider outcome may report. */
    predicate IsFailureCode() {
      Transient? || RateLimited? || Timeout? || InvalidOutput? || UnsafeOutput? || RepeatedOutput? || Credentials?
      || Configuration? || AccountingUnsupported? || ExecutionCancelled? || Permanent?
    }

    predicate IsSkipReason() {
      NotRelevant? || InsufficientContext? || UnsafeRequest? || Repetition?
    }
  }

  datatype OutputKind = OutputPost | OutputQuote | OutputReply

  datatype Decision = Publish | Skip

  datatype Attachment = Attachment(language: string, filename: string, source: string)

  datatype Content = Content(body: string, code: Option<Attachment>)

  /** A decoded provider result. Its digest binds all of it, so a stored digest is
      represented by the result it binds. */
  datatype Result = Result(decision: Decision, kind: OutputKind, content: Content, reason: Code)

  datatype AttemptStatus = Reserved | Succeeded | Failed | Unknown

  const MAX_INPUT_TOKENS: int := 8192
  const MAX_OUTPUT_TOKENS: int := 1024
  const RESERVED_TOKENS: int := 132096
  const MAX_ATTEMPTS: int := 3
  const MAX_REGENERATIONS: int := 1
  const MAX_JITTER: int := 1_000_000

  /** An attempt row. It is addressed by its job's row number and its attempt number. */
  datatype Attempt = Attempt(
    job: nat, number: int, lease: int, pauseRevision: Option<int>, prompt: nat,
    digest: Option<Result>, decision: Option<Decision>, skipReason: Code, notBefore: Option<Instant>,
    budgetDay: int, reserved: int, input: Option<int>, output: Option<int>,
    status: AttemptStatus, error: Code, requestId: Option<nat>, startedAt: Instant, finishedAt: Option<Instant>)
  {
    predicate Valid() {
      && 1 <= number <= 2147483647 && lease >= 1
      && (pauseRevision.Some? ==> pauseRevision.value >= 0)
      && (digest.Some? ==> status == Succeeded)
      && (decision.Some? ==> status == Succeeded && digest.Some?)
      && (if decision == Some(Skip) then skipReason.IsSkipReason() else skipReason == NoCode)
      && (notBefore.Some? ==> (status == Failed || status == Unknown) && notBefore.value != 0)
      && startedAt != 0 && budgetDay == DateOf(startedAt) && reserved > 0
      && input.None? == output.None?
      && (input.Some? ==> 0 <= input.value <= reserved && 0 <= output.value <= reserved - input.value)
      && (if status == Reserved then
            finishedAt.None? && input.None? && error == NoCode && requestId.None?
          else
            && finishedAt.Some? && finishedAt.value >= startedAt
            && (if status == Succeeded then error == NoCode else error != NoCode)
            && (status == Unknown ==> input.None?))
    }

    predicate Finished() {
      status != Reserved && finishedAt.Some?
    }

    /** The conservative token total of a single attempt, as the domain layer accounts it. */
    function Accounted(): int {
      if status == Reserved || status == Unknown || input.None? || output.None? || !Valid() then reserved
      else input.value + output.value
    }

    /** The token total the daily budget query charges for a row. */
    function Cost(): int {
      if status == Reserved || status == Unknown || input.None? || output.None?
         || input.value < 1 || input.value > MAX_INPUT_TOKENS
         || output.value < 0 || output.value > MAX_OUTPUT_TOKENS || error == AccountingUnsupported
      then reserved
      else input.value + output.value
    }

    /** The columns fixed by the reservation. */
    function Reservation(): (nat, int, int, Option<int>, nat, int, int, Instant) {
      (job, number, lease, pauseRevision, prompt, budgetDay, reserved, startedAt)
    }
  }

  /** An outcome may only be written once, over a reservation, and never changes what was reserved. */
  predicate ValidAttemptTransition(before: Attempt, after: Attempt) {
    && before.Valid() && after.Valid()
    && before.status == Reserved && after.status != Reserved
    && before.Reservation() == after.Reservation()
  }

  /** What the provider adapter reports for one call; exactly one of result and failure is present. */
  datatype Outcome = Outcome(result: Option<Result>, failure: Code, notBefore: Option<Instant>, input: Option<int>, output: Option<int>)

  /** The outcome's own validity, counts aside. */
  predicate ValidOutcome(o: Outcome) {
    && (o.result.Some? <==> o.failure == NoCode)
    && (o.failure == NoCode || o.failure.IsFailureCode())
    && (o.result.Some? ==>
          if o.result.value.decision == Skip then o.result.value.reason.IsSkipReason()
          else o.result.value.reason == NoCode)
    && (o.notBefore.Some? ==> o.failure != NoCode && o.notBefore.value != 0)
  }

  predicate Uncertain(failure: Code) {
    failure == Timeout || failure == ExecutionCancelled || failure == AccountingUnsupported
  }

  /** Settlement's normalisation: uncertain calls report no usage, usage over the local targets
      becomes an execution-stopping failure, and only verified counts are kept. */
  function Normalise(o: Outcome): (n: Outcome)
    requires ValidOutcome(o)
    ensures ValidOutcome(n) && n.input.Some? == n.output.Some?
    ensures n.input.Some? ==> 1 <= n.input.value <= MAX_INPUT_TOKENS && 0 <= n.output.value <= MAX_OUTPUT_TOKENS
    ensures n.input.Some? ==> n.input == o.input && n.output == o.output && !Uncertain(n.failure)
    ensures n.result.Some? ==> n.result == o.result
  {
    var (input, output) := if Uncertain(o.failure) then (None, None) else (o.input, o.output);
    var plain := o.(input := None, output := None);
    var stopped := plain.(result := None, failure := AccountingUnsupported);
    if input.Some? && output.Some? then
      if input.value > MAX_INPUT_TOKENS || output.value > MAX_OUTPUT_TOKENS then stopped
      else if input.value >= 1 && output.value >= 0 then plain.(input := input, output := output)
      else plain
    else if (input.Some? && input.value > MAX_INPUT_TOKENS) || (output.Some? && output.value > MAX_OUTPUT_TOKENS) then stopped
    else plain
  }

  /** The row a normalised outcome writes over a reservation. */
  function Settled(reservation: Attempt, n: Outcome, requestId: Option<nat>, now: Instant): Attempt {
    var after := reservation.(
      status := Failed, finishedAt := Some(now), requestId := requestId, error := n.failure,
      input := n.input, output := n.output, notBefore := n.notBefore);
    var classified :=
      if n.result.Some? then
        after.(status := Succeeded, digest := n.result, decision := Some(n.result.value.decision), skipReason := n.result.value.reason)
      else after;
    if n.failure == Timeout || n.failure == ExecutionCancelled then classified.(status := Unknown) else classified
  }

  /** The two accountings agree on everything settlement can write. */
  lemma AccountingsAgree(before: Attempt, o: Outcome, requestId: Option<nat>, now: Instant)
    requires ValidOutcome(o)
    requires before.reserved == RESERVED_TOKENS
    requires ValidAttemptTransition(before, Settled(before, Normalise(o), requestId, now))
    ensures Settled(before, Normalise(o), requestId, now).Cost() == Settled(before, Normalise(o), requestId, now).Accounted()
    ensures Settled(before, Normalise(o), requestId, now).Cost() <= before.Cost()
  {
  }

  function InvalidOutputs(attempts: seq<Attempt>): (n: nat)
    ensures n <= |attempts|
  {
    if attempts == [] then 0
    else InvalidOutputs(attempts[..|attempts| - 1]) + (if attempts[|attempts| - 1].error == InvalidOutput then 1 else 0)
  }

  function Backoff(attempts: int): int
    requires 1 <= attempts < MAX_ATTEMPTS
  {
    if attempts == 1 then 2_000_000 else 4_000_000
  }

  /** The instant a failed attempt may be retried at, if it may. */
  function NextRetry(now: Instant, expiresAt: Instant, attempts: int, invalid: int, failure: Code,
                     notBefore: Option<Instant>, jitter: int): (r: Option<Instant>)
    ensures r.Some? ==> now < r.value < expiresAt && attempts < MAX_ATTEMPTS
    ensures r.Some? && notBefore.Some? ==> notBefore.value <= r.value
    ensures r.Some? ==> now + (if attempts == 1 then 2_000_000 else 4_000_000) + jitter <= r.value
    ensures r.Some? ==> r == notBefore || r.value == now + (if attempts == 1 then 2_000_000 else 4_000_000) + jitter
    ensures r.Some? ==> failure == InvalidOutput ==> invalid <= MAX_REGENERATIONS
  {
    if now == 0 || attempts < 1 || attempts >= MAX_ATTEMPTS || invalid < 0 || invalid > attempts || jitter < 0 || jitter > MAX_JITTER then None
    else if !(failure.Transient? || failure.RateLimited? || failure.Timeout? || failure.InvalidOutput?) then None
    else if failure.InvalidOutput? && (invalid < 1 || invalid > MAX_REGENERATIONS) then None
    else
      var backed := now + Backoff(attempts) + jitter;
      var next := if notBefore.Some? && notBefore.value > backed then notBefore.value else backed;
      if next < expiresAt then Some(next) else None
  }
}
