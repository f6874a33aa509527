/** One worker's pass over the store: what it asks, in which order, whatever the store and the provider answer. */
module Worker {
  import opened Basics
  import opened Attempts
  import opened Jobs

  /** Why a store operation was refused. */
  datatype Fault = NotFound | Deleted | Forbidden | Conflict | BadOutput | Broken

  datatype Answer<+T> = Ok(value: T) | Fault(fault: Fault)

  /** What ends a pass early. */
  datatype Stop = Storage | Stopped | CredentialStop | ConfigurationStop | AccountingStop

  /** The operations of a pass with their answers, in order. */
  datatype Step =
    | Claimed(job: Job)
    | ReadLatest(latest: Option<Attempt>)
    | ReservedCall(attempt: Attempt)
    | NothingReserved
    | Called(attempt: Attempt, outcome: Outcome)
    | SettledAs(attempt: Attempt, outcome: Outcome, accepted: bool)
    | SettleFailed(attempt: Attempt, outcome: Outcome)
    | Completed(number: int, status: Option<JobStatus>)
    | DeniedAs(reason: Code)
    | PublishTried(attempt: Attempt, output: Result)

  const CANCELLED: Outcome := Outcome(None, ExecutionCancelled, None, None, None)

  // ---- What a pass may do ----

  /** The attempt a publication may rest on: the row just read back is the very reservation, succeeded with this output. */
  ghost predicate Confirms(durable: Option<Attempt>, attempt: Attempt, job: Job, output: Result) {
    && durable.Some? && durable.value.number == attempt.number && durable.value.job == attempt.job && durable.value.lease == job.lease
    && durable.value.status == Succeeded && durable.value.decision == Some(Publish) && durable.value.digest == Some(output)
  }

  /** Each step only ever follows the steps that license it. */
  ghost predicate Licensed(t: seq<Step>, i: nat, job: Job)
    requires i < |t|
  {
    match t[i]
    case Called(a, _) => i > 0 && t[i - 1] == ReservedCall(a)
    case SettledAs(a, _, _) => SettleLicensed(t, i, a)
    case SettleFailed(a, _) => SettleLicensed(t, i, a)
    case PublishTried(a, output) =>
      && i >= 4 && t[i - 4].Called? && t[i - 4].attempt == a && t[i - 4].outcome.result == Some(output)
      && t[i - 3] == SettledAs(a, t[i - 4].outcome, true)
      && t[i - 2].ReadLatest? && Confirms(t[i - 2].latest, a, job, output)
      && t[i - 1] == Completed(a.number, Some(Running))
    case _ => true
  }

  /** Only a reservation made in this pass is ever settled. */
  ghost predicate SettleLicensed(t: seq<Step>, i: nat, a: Attempt)
    requires i < |t|
  {
    exists k :: 0 <= k < i && t[k] == ReservedCall(a)
  }

  ghost predicate Disciplined(t: seq<Step>, job: Job) {
    forall i :: 0 <= i < |t| ==> Licensed(t, i, job)
  }

  /** A reservation is at once called for, or settled as cancelled; a call is at once settled. */
  ghost predicate FollowedUp(t: seq<Step>) {
    forall i :: 0 <= i < |t| ==>
      && (t[i].ReservedCall? ==> i + 1 < |t| && (t[i + 1].Called? || t[i + 1].SettledAs? || t[i + 1].SettleFailed?) && t[i + 1].attempt == t[i].attempt)
      && (t[i].Called? ==> i + 1 < |t| && (t[i + 1].SettledAs? || t[i + 1].SettleFailed?) && t[i + 1].attempt == t[i].attempt)
  }

  function Calls(t: seq<Step>): nat {
    if t == [] then 0 else Calls(t[..|t| - 1]) + (if t[|t| - 1].Called? then 1 else 0)
  }

  function CallsFor(t: seq<Step>, a: Attempt): nat {
    if t == [] then 0 else CallsFor(t[..|t| - 1], a) + (if t[|t| - 1].Called? && t[|t| - 1].attempt == a then 1 else 0)
  }

  function AdmissionsOf(t: seq<Step>, a: Attempt): nat {
    if t == [] then 0 else AdmissionsOf(t[..|t| - 1], a) + (if t[|t| - 1] == ReservedCall(a) then 1 else 0)
  }

  /** No reservation is called for more often than it was made, wherever the worker crashes. */
  lemma {:induction false} CallsWithinAdmissions(t: seq<Step>, job: Job, a: Attempt)
    requires Disciplined(t, job)
    ensures CallsFor(t, a) <= AdmissionsOf(t, a)
    ensures t != [] && t[|t| - 1] == ReservedCall(a) ==> CallsFor(t, a) < AdmissionsOf(t, a)
    decreases |t|
  {
    if t != [] {
      var n := |t| - 1;
      CrashDisciplined(t, job, n);
      CallsWithinAdmissions(t[..n], job, a);
      assert Licensed(t, n, job);
      if t[n].Called? && t[n].attempt == a {
        assert t[..n][n - 1] == ReservedCall(a);
      }
    }
  }

  /** A crash leaves a prefix, and a prefix of a disciplined pass is disciplined. */
  lemma CrashDisciplined(t: seq<Step>, job: Job, n: nat)
    requires Disciplined(t, job) && n <= |t|
    ensures Disciplined(t[..n], job)
  {
    forall i | 0 <= i < n ensures Licensed(t[..n], i, job) {
      assert Licensed(t, i, job);
    }
  }

  lemma ExtendDisciplined(t: seq<Step>, step: Step, job: Job)
    requires Disciplined(t, job) && Licensed(t + [step], |t|, job)
    ensures Disciplined(t + [step], job)
  {
    forall i | 0 <= i < |t| + 1 ensures Licensed(t + [step], i, job) {
      if i < |t| {
        assert Licensed(t, i, job);
        assert forall k :: 0 <= k < |t| ==> (t + [step])[k] == t[k];
      }
    }
  }

  /** The fatal outcomes a durable attempt stops the whole pass for. */
  function DurableStop(a: Attempt): Option<Stop> {
    if a.status == Reserved || a.status == Succeeded then None
    else match a.error
      case Credentials => Some(CredentialStop)
      case Configuration => Some(ConfigurationStop)
      case AccountingUnsupported => Some(AccountingStop)
      case _ => None
  }

  /** Only a closed attempt that failed for its credentials, its configuration or its accounting stops a pass, each in its own way. */
  lemma DurableStopExactly(a: Attempt)
    ensures var closed := a.status == Failed || a.status == Unknown;
            && (DurableStop(a) == Some(CredentialStop) <==> closed && a.error == Credentials)
            && (DurableStop(a) == Some(ConfigurationStop) <==> closed && a.error == Configuration)
            && (DurableStop(a) == Some(AccountingStop) <==> closed && a.error == AccountingUnsupported)
            && (DurableStop(a).Some? ==> DurableStop(a).value in {CredentialStop, ConfigurationStop, AccountingStop})
  {
  }

  // ---- What a pass must do ----

  /** The denial a refused operation is acknowledged with; a conflict outside a publication needs none, and a storage failure gets none. */
  const REJECTIONS: map<(Fault, bool), Code> := map[
    (NotFound, false) := SourceRemoved, (NotFound, true) := SourceRemoved, (Deleted, false) := SourceRemoved, (Deleted, true) := SourceRemoved,
    (Forbidden, false) := PolicyDenied, (Forbidden, true) := PolicyDenied, (Conflict, true) := PublicationDenied,
    (BadOutput, false) := ContextRejected, (BadOutput, true) := PublicationDenied]

  ghost predicate Rejected(t: seq<Step>, fault: Fault, publication: bool, stop: Option<Stop>) {
    if (fault, publication) in REJECTIONS then t == [DeniedAs(REJECTIONS[(fault, publication)])]
    else t == [] && stop == if fault == Broken then Some(Storage) else None
  }

  /** The steps once the job runs on with a settled call: publish exactly what is confirmed, and deny anything else. */
  ghost predicate Delivers(t: seq<Step>, a: Attempt, outcome: Outcome, accepted: bool, durable: Attempt, job: Job, stop: Option<Stop>) {
    if accepted && outcome.result.Some? && Confirms(Some(durable), a, job, outcome.result.value) then
      || (t == [] && stop == Some(Stopped))
      || t == [PublishTried(a, outcome.result.value)]
      || (exists fault :: (fault, true) in REJECTIONS && t == [PublishTried(a, outcome.result.value), DeniedAs(REJECTIONS[(fault, true)])])
    else t == [DeniedAs(OutcomeUnavailable)]
  }

  /** The steps after a call, as far as storage lets them get: settle, read back, complete, and then deliver. */
  ghost predicate Concludes(t: seq<Step>, a: Attempt, outcome: Outcome, job: Job, stop: Option<Stop>) {
    && |t| >= 1 && (t[0] == SettleFailed(a, outcome) || t[0] == SettledAs(a, outcome, true) || t[0] == SettledAs(a, outcome, false))
    && (t[0].SettleFailed? ==> |t| == 1) && (|t| == 1 ==> stop == Some(Storage))
    && (|t| >= 2 ==> t[1].ReadLatest? && (t[1].latest.None? ==> |t| == 2) && (|t| == 2 ==> stop == Some(Storage)))
    && (|t| >= 3 ==>
          && t[2].Completed? && t[2].number == t[1].latest.value.number
          && if DurableStop(t[1].latest.value).Some? || t[2].status != Some(Running) then |t| == 3 && stop == DurableStop(t[1].latest.value)
             else Delivers(t[3..], a, outcome, t[0].accepted, t[1].latest.value, job, stop))
  }

  /** The steps over a prior attempt: none without one; wait for an open one; complete one that was not acknowledged; and go on from
      an acknowledged one unless its accounting was unsupported. */
  ghost predicate Resumes(t: seq<Step>, job: Job, go: bool, stop: Option<Stop>) {
    && (t == [] ==> !go && stop == Some(Storage))
    && (t != [] ==> t[0].ReadLatest? && (t[0].latest.None? ==> go && |t| == 1))
    && (t != [] && t[0].latest.Some? ==>
          var prior := t[0].latest.value;
          if prior.status == Reserved then |t| == 1 && !go && stop.None?
          else if prior.lease < job.lease && prior.finishedAt.Some? && job.availableAt > prior.finishedAt.value then
            |t| == 1 && go == (DurableStop(prior) != Some(AccountingStop)) && stop == if go then None else Some(AccountingStop)
          else
            && !go && (|t| == 1 ==> stop == Some(Storage))
            && (|t| >= 2 ==>
                  && t[1].Completed? && t[1].number == prior.number
                  && if DurableStop(prior).None? && t[1].status == Some(Running) then |t| == 3 && t[2] == DeniedAs(OutcomeUnavailable)
                     else |t| == 2 && stop == DurableStop(prior)))
  }

  /** Whether a prior attempt's outcome was already acknowledged by a retry. */
  predicate Acknowledged(prior: Attempt, job: Job) {
    prior.lease < job.lease && prior.finishedAt.Some? && job.availableAt > prior.finishedAt.value
  }

  /** The store and the provider as the worker sees them: they may answer anything, at any time, and a shutdown may
      arrive at any time and then stays. */
  class Session {
    const job: Job
    var trace: seq<Step>
    var cancelled: bool

    constructor (job: Job)
      ensures this.job == job && trace == [] && !cancelled
    {
      this.job := job;
      trace, cancelled := [], false;
    }

    method Interrupted() returns (stop: bool)
      modifies this`cancelled
      ensures stop == cancelled && (old(cancelled) ==> cancelled)
    {
      var signal := *;
      cancelled := cancelled || signal;
      stop := cancelled;
    }

    method Record(step: Step)
      requires Disciplined(trace, job) && Licensed(trace + [step], |trace|, job)
      modifies this`trace
      ensures Disciplined(trace, job) && trace == old(trace) + [step]
    {
      ExtendDisciplined(trace, step, job);
      trace := trace + [step];
    }

    method Latest() returns (r: Answer<Option<Attempt>>)
      requires Disciplined(trace, job)
      modifies this`trace
      ensures Disciplined(trace, job)
      ensures trace == if r.Ok? then old(trace) + [ReadLatest(r.value)] else old(trace)
    {
      r := *;
      if r.Ok? {
        Record(ReadLatest(r.value));
      }
    }

    method Ask() returns (r: Answer<()>)
    {
      r := *;
    }

    /** A reservation answers only with a new, committed one. */
    method Reserve() returns (r: Answer<Option<Attempt>>)
      requires Disciplined(trace, job)
      modifies this`trace
      ensures Disciplined(trace, job)
      ensures r.Ok? ==> trace == old(trace) + [if r.value.Some? then ReservedCall(r.value.value) else NothingReserved]
      ensures !r.Ok? ==> trace == old(trace)
    {
      r := *;
      if r.Ok? {
        Record(if r.value.Some? then ReservedCall(r.value.value) else NothingReserved);
      }
    }

    /** The provider call, with the renewals that run beside it. */
    method Call(a: Attempt) returns (outcome: Outcome, lease: Option<Fault>)
      requires Disciplined(trace, job) && trace != [] && trace[|trace| - 1] == ReservedCall(a)
      modifies this`trace
      ensures Disciplined(trace, job) && trace == old(trace) + [Called(a, outcome)]
    {
      outcome, lease := *, *;
      Record(Called(a, outcome));
    }

    method Settle(a: Attempt, outcome: Outcome) returns (r: Answer<bool>)
      requires Disciplined(trace, job) && ReservedCall(a) in trace
      modifies this`trace
      ensures Disciplined(trace, job)
      ensures trace == old(trace) + [if r.Ok? then SettledAs(a, outcome, r.value) else SettleFailed(a, outcome)]
    {
      r := *;
      var k :| 0 <= k < |trace| && trace[k] == ReservedCall(a);
      var step := if r.Ok? then SettledAs(a, outcome, r.value) else SettleFailed(a, outcome);
      assert (trace + [step])[k] == ReservedCall(a);
      Record(step);
    }

    /** A conflict is a denial, not an error. */
    method Complete(number: int) returns (r: Answer<Option<JobStatus>>)
      requires Disciplined(trace, job)
      modifies this`trace
      ensures Disciplined(trace, job)
      ensures trace == if r.Ok? then old(trace) + [Completed(number, r.value)] else old(trace)
    {
      r := *;
      if r == Answer.Fault(Conflict) {
        r := Ok(None);
      }
      if r.Ok? {
        Record(Completed(number, r.value));
      }
    }

    method Deny(reason: Code) returns (stop: Option<Stop>)
      requires Disciplined(trace, job)
      modifies this`trace
      ensures Disciplined(trace, job) && trace == old(trace) + [DeniedAs(reason)]
    {
      var failed: bool := *;
      Record(DeniedAs(reason));
      stop := if failed then Some(Storage) else None;
    }

    method Publish(a: Attempt, output: Result) returns (r: Answer<()>)
      requires Disciplined(trace, job) && Licensed(trace + [PublishTried(a, output)], |trace|, job)
      modifies this`trace
      ensures Disciplined(trace, job) && trace == old(trace) + [PublishTried(a, output)]
    {
      r := *;
      Record(PublishTried(a, output));
    }
  }

  /** A refused operation becomes the denial that fits it. */
  method Reject(s: Session, fault: Fault, publication: bool) returns (stop: Option<Stop>)
    requires Disciplined(s.trace, s.job)
    modifies s`trace
    ensures Disciplined(s.trace, s.job)
    ensures |s.trace| >= |old(s.trace)| && s.trace[..|old(s.trace)|] == old(s.trace)
    ensures Rejected(s.trace[|old(s.trace)|..], fault, publication, stop)
  {
    match fault {
      case NotFound => stop := s.Deny(SourceRemoved);
      case Deleted => stop := s.Deny(SourceRemoved);
      case Forbidden => stop := s.Deny(PolicyDenied);
      case Conflict =>
        if publication {
          stop := s.Deny(PublicationDenied);
        } else {
          stop := None;
        }
      case BadOutput => stop := s.Deny(if publication then PublicationDenied else ContextRejected);
      case Broken => stop := Some(Storage);
    }
  }

  /** Settle an interrupted call; an uncertain call keeps its full cost, whatever it may have returned. */
  method Cancel(s: Session, a: Attempt, acknowledge: bool) returns (stop: Option<Stop>)
    requires Disciplined(s.trace, s.job) && ReservedCall(a) in s.trace
    modifies s`trace
    ensures Disciplined(s.trace, s.job) && |s.trace| > |old(s.trace)| && s.trace[..|old(s.trace)|] == old(s.trace)
    ensures var next := s.trace[|old(s.trace)|];
            && (next.SettledAs? || next.SettleFailed?) && next.attempt == a
            && next.outcome == Outcome(None, ExecutionCancelled, None, None, None)
            && s.trace[|old(s.trace)| + 1..] == (if next.SettledAs? && acknowledge then [DeniedAs(ExecutionCancelled)] else [])
            && (next.SettleFailed? ==> stop == Some(Storage))
  {
    var settled := s.Settle(a, CANCELLED);
    if settled.Fault? {
      return Some(Storage);
    }
    stop := None;
    if acknowledge {
      stop := s.Deny(ExecutionCancelled);
    }
  }

  /** Settle a returned call, acknowledge what is durable, and publish only what the database confirms. */
  method Finish(s: Session, a: Attempt, outcome: Outcome) returns (stop: Option<Stop>)
    requires Disciplined(s.trace, s.job) && ReservedCall(a) in s.trace && s.trace[|s.trace| - 1] == Called(a, outcome)
    modifies s
    ensures Disciplined(s.trace, s.job) && |s.trace| > |old(s.trace)| && s.trace[..|old(s.trace)|] == old(s.trace)
    ensures var next := s.trace[|old(s.trace)|]; (next.SettledAs? || next.SettleFailed?) && next.attempt == a
    ensures forall i :: |old(s.trace)| <= i < |s.trace| ==> !s.trace[i].ReservedCall? && !s.trace[i].Called?
    ensures Concludes(s.trace[|old(s.trace)|..], a, outcome, s.job, stop)
  {
    hide Disciplined, Licensed, Delivers, DurableStop;
    ghost var before := s.trace;
    var settled := s.Settle(a, outcome);
    if settled.Fault? {
      return Some(Storage);
    }
    var latest := s.Latest();
    if latest.Fault? || latest.value.None? {
      return Some(Storage);
    }
    var durable := latest.value.value;
    var completed := s.Complete(durable.number);
    if completed.Fault? {
      return Some(Storage);
    }
    stop := DurableStop(durable);
    ghost var t := [SettledAs(a, outcome, settled.value), ReadLatest(Some(durable)), Completed(durable.number, completed.value)];
    assert s.trace == before + t && s.trace[|before|..] == t;
    if stop.None? && completed.value == Some(Running) {
      stop := Deliver(s, a, outcome, settled.value, durable);
      Suffixes(before, t, s.trace);
    }
  }

  lemma Suffixes(before: seq<Step>, t: seq<Step>, trace: seq<Step>)
    requires |trace| >= |before| + |t| && trace[..|before| + |t|] == before + t
    ensures trace[..|before|] == before && trace[|before|..|before| + |t|] == t
    ensures trace[|before|..] == t + trace[|before| + |t|..]
  {
    assert forall i :: 0 <= i < |before| + |t| ==> trace[i] == (before + t)[i];
  }

  /** Publish what the database confirms of this very call, unless a shutdown came; anything else has no output. */
  method Deliver(s: Session, a: Attempt, outcome: Outcome, accepted: bool, durable: Attempt) returns (stop: Option<Stop>)
    requires Disciplined(s.trace, s.job) && |s.trace| >= 4
    requires s.trace[|s.trace| - 4..]
             == [Called(a, outcome), SettledAs(a, outcome, accepted), ReadLatest(Some(durable)), Completed(durable.number, Some(Running))]
    modifies s
    ensures Disciplined(s.trace, s.job) && |s.trace| >= |old(s.trace)| && s.trace[..|old(s.trace)|] == old(s.trace)
    ensures forall i :: |old(s.trace)| <= i < |s.trace| ==> !s.trace[i].ReservedCall? && !s.trace[i].Called?
    ensures Delivers(s.trace[|old(s.trace)|..], a, outcome, accepted, durable, s.job, stop)
  {
    hide Disciplined, Confirms;
    ghost var before := s.trace;
    ConfirmsExactly(durable, a, s.job, outcome);
    if !accepted || durable.number != a.number || durable.job != a.job || durable.lease != s.job.lease || durable.status != Succeeded
       || durable.decision != Some(Decision.Publish) || durable.digest.None? || durable.digest != outcome.result {
      stop := s.Deny(OutcomeUnavailable);
      return;
    }
    var interrupted := s.Interrupted();
    if interrupted {
      return Some(Stopped);
    }
    PublishLicensed(before, a, outcome, durable, s.job);
    var published := s.Publish(a, outcome.result.value);
    stop := None;
    if published.Fault? {
      ghost var tried := s.trace;
      stop := Reject(s, published.fault, true);
      RejectedSteps(s.trace[|tried|..], published.fault, stop);
      assert s.trace[|before|..] == [PublishTried(a, outcome.result.value)] + s.trace[|tried|..];
    }
  }

  lemma ConfirmsExactly(durable: Attempt, a: Attempt, job: Job, outcome: Outcome)
    ensures outcome.result.Some? && Confirms(Some(durable), a, job, outcome.result.value) <==>
              && durable.number == a.number && durable.job == a.job && durable.lease == job.lease && durable.status == Succeeded
              && durable.decision == Some(Decision.Publish) && durable.digest.Some? && durable.digest == outcome.result
  {
  }

  lemma PublishLicensed(t: seq<Step>, a: Attempt, outcome: Outcome, durable: Attempt, job: Job)
    requires |t| >= 4 && outcome.result.Some? && Confirms(Some(durable), a, job, outcome.result.value) && durable.number == a.number
    requires t[|t| - 4..] == [Called(a, outcome), SettledAs(a, outcome, true), ReadLatest(Some(durable)), Completed(durable.number, Some(Running))]
    ensures Licensed(t + [PublishTried(a, outcome.result.value)], |t|, job)
  {
    hide Confirms;
    var n := |t|;
    assert t[n - 4] == t[n - 4..][0] && t[n - 3] == t[n - 4..][1] && t[n - 2] == t[n - 4..][2] && t[n - 1] == t[n - 4..][3];
  }

  lemma RejectedSteps(t: seq<Step>, fault: Fault, stop: Option<Stop>)
    requires Rejected(t, fault, true, stop)
    ensures t == [] || exists f :: (f, true) in REJECTIONS && t == [DeniedAs(REJECTIONS[(f, true)])]
    ensures |t| <= 1 && forall i :: 0 <= i < |t| ==> t[i].DeniedAs?
  {
  }

  /** What a prior attempt asks before any new call: nothing more to do here, or on to a reservation. */
  method Resume(s: Session) returns (go: bool, stop: Option<Stop>)
    requires Disciplined(s.trace, s.job)
    modifies s`trace
    ensures Disciplined(s.trace, s.job) && |s.trace| >= |old(s.trace)| && s.trace[..|old(s.trace)|] == old(s.trace)
    ensures forall i :: |old(s.trace)| <= i < |s.trace| ==> !s.trace[i].ReservedCall? && !s.trace[i].Called?
    ensures go ==> |s.trace| == |old(s.trace)| + 1 && s.trace[|old(s.trace)|].ReadLatest?
                   && var prior := s.trace[|old(s.trace)|].latest;
                   (prior.None? || (prior.value.status != Reserved && Acknowledged(prior.value, s.job)
                                    && DurableStop(prior.value) != Some(AccountingStop)))
    ensures Resumes(s.trace[|old(s.trace)|..], s.job, go, stop)
  {
    go, stop := false, None;
    var latest := s.Latest();
    if latest.Fault? {
      return false, Some(Storage);
    }
    if latest.value.None? {
      return true, None;
    }
    var prior := latest.value.value;
    if prior.status == Reserved {
      return;
    }
    if Acknowledged(prior, s.job) {
      if DurableStop(prior) == Some(AccountingStop) {
        return false, Some(AccountingStop);
      }
      return true, None;
    }
    var completed := s.Complete(prior.number);
    if completed.Fault? {
      return false, Some(Storage);
    }
    stop := DurableStop(prior);
    if stop.None? && completed.value == Some(Running) {
      stop := s.Deny(OutcomeUnavailable);
    }
  }

  /** One claimed job: at most one reservation and at most one call, each at once followed up. */
  method RunJob(s: Session) returns (calls: nat, stop: Option<Stop>)
    requires s.trace == []
    modifies s
    ensures Disciplined(s.trace, s.job) && FollowedUp(s.trace)
    ensures calls == Calls(s.trace) <= 1
  {
    hide Disciplined;
    calls := 0;
    var go, early := Resume(s);
    if !go {
      NoCalls(s.trace);
      return 0, early;
    }
    NoCalls(s.trace);
    var context := s.Ask();
    if context.Fault? {
      stop := Reject(s, context.fault, false);
      NoCalls(s.trace);
      return;
    }
    var prompt: bool := *;
    if !prompt {
      stop := s.Deny(ContextRejected);
      NoCalls(s.trace);
      return;
    }
    var reserved := s.Reserve();
    if reserved.Fault? {
      stop := Reject(s, reserved.fault, false);
      NoCalls(s.trace);
      return;
    }
    if reserved.value.None? {
      NoCalls(s.trace);
      return 0, None;
    }
    calls, stop := UseReservation(s, reserved.value.value);
  }

  /** A fresh reservation is used for one call, or settled unused when a shutdown came first. */
  method UseReservation(s: Session, a: Attempt) returns (calls: nat, stop: Option<Stop>)
    requires Disciplined(s.trace, s.job) && s.trace != [] && s.trace[|s.trace| - 1] == ReservedCall(a)
    requires forall i :: 0 <= i < |s.trace| - 1 ==> !s.trace[i].ReservedCall? && !s.trace[i].Called?
    modifies s
    ensures Disciplined(s.trace, s.job) && FollowedUp(s.trace)
    ensures calls == Calls(s.trace) <= 1
  {
    hide Disciplined;
    var n := |s.trace|;
    var interrupted := s.Interrupted();
    if interrupted {
      stop := Cancel(s, a, true);
      assert s.trace[n - 1] == ReservedCall(a);
      NoCalls(s.trace);
      return 0, stop;
    }
    stop := CallProvider(s, a);
    calls := 1;
  }

  /** One call, then either its settlement as cancelled or its completion. */
  method CallProvider(s: Session, a: Attempt) returns (stop: Option<Stop>)
    requires Disciplined(s.trace, s.job) && s.trace != [] && s.trace[|s.trace| - 1] == ReservedCall(a)
    requires forall i :: 0 <= i < |s.trace| - 1 ==> !s.trace[i].ReservedCall? && !s.trace[i].Called?
    modifies s
    ensures Disciplined(s.trace, s.job) && FollowedUp(s.trace)
    ensures Calls(s.trace) == 1
  {
    hide Disciplined, Calls, FollowedUp;
    var n := |s.trace|;
    var outcome, lease := s.Call(a);
    ghost var called := s.trace;
    assert called[n - 1] == ReservedCall(a) && called[n] == Called(a, outcome);
    var interrupted := s.Interrupted();
    if interrupted || lease.Some? {
      stop := Cancel(s, a, lease.None?);
      OnceFollowed(s.trace, called, n);
      if stop.None? {
        stop := if interrupted then Some(Stopped) else if lease == Some(Conflict) then None else Some(Storage);
      }
      return;
    }
    stop := Finish(s, a, outcome);
    ghost var finished := s.trace;
    assert finished[n - 1] == called[n - 1] && finished[n] == called[n];
    interrupted := s.Interrupted();
    if interrupted {
      var cleanup := Cancel(s, a, true);
      stop := if cleanup.Some? then cleanup else Some(Stopped);
      OnceFollowed(s.trace, finished, n);
    } else {
      OnceFollowed(s.trace, finished, n);
    }
  }

  /** A pass whose only reservation and call stand next to each other, with a settlement behind. */
  lemma OnceFollowed(t: seq<Step>, front: seq<Step>, n: nat)
    requires n + 1 < |t| && 1 <= n < |front| <= |t| && t[..|front|] == front
    requires t[n + 1].SettledAs? || t[n + 1].SettleFailed?
    requires front[n - 1].ReservedCall? && front[n].Called? && front[n].attempt == front[n - 1].attempt == t[n + 1].attempt
    requires forall i :: 0 <= i < |front| && i != n - 1 && i != n ==> !front[i].ReservedCall? && !front[i].Called?
    requires forall i :: |front| <= i < |t| ==> !t[i].ReservedCall? && !t[i].Called?
    ensures FollowedUp(t) && Calls(t) == 1
  {
    assert forall i :: 0 <= i < |front| ==> t[i] == front[i];
    OneCall(t, n);
  }

  lemma {:induction false} NoCalls(t: seq<Step>)
    requires forall i :: 0 <= i < |t| ==> !t[i].Called?
    ensures Calls(t) == 0
    decreases |t|
  {
    if t != [] {
      NoCalls(t[..|t| - 1]);
    }
  }

  lemma {:induction false} OneCall(t: seq<Step>, n: nat)
    requires n < |t| && t[n].Called? && forall i :: 0 <= i < |t| && i != n ==> !t[i].Called?
    ensures Calls(t) == 1
    decreases |t|
  {
    var m := |t| - 1;
    if n == m {
      NoCalls(t[..m]);
    } else {
      OneCall(t[..m], n);
    }
  }

  method Claim() returns (r: Answer<Option<Job>>)
  {
    r := *;
  }

  const PROBES: nat := 8

  /** One bounded pass: at most eight claims, at most one call for each. */
  method Pass() returns (claimed: nat, calls: nat, traces: seq<(Job, seq<Step>)>, stop: Option<Stop>)
    ensures calls <= claimed == |traces| <= 8
    ensures forall i :: 0 <= i < |traces| ==>
              Disciplined(traces[i].1, traces[i].0) && FollowedUp(traces[i].1) && Calls(traces[i].1) <= 1
  {
    claimed, calls, traces, stop := 0, 0, [], None;
    for probe := 0 to PROBES
      invariant calls <= claimed == |traces| <= probe
      invariant forall i :: 0 <= i < |traces| ==>
                  Disciplined(traces[i].1, traces[i].0) && FollowedUp(traces[i].1) && Calls(traces[i].1) <= 1
    {
      var shutdown: bool := *;
      if shutdown {
        return claimed, calls, traces, Some(Stopped);
      }
      var claim := Claim();
      if claim.Fault? {
        return claimed, calls, traces, Some(Storage);
      }
      if claim.value.Some? {
        var s := new Session(claim.value.value);
        var made, early := RunJob(s);
        claimed, calls, traces := claimed + 1, calls + made, traces + [(s.job, s.trace)];
        if early.Some? {
          return claimed, calls, traces, early;
        }
      }
    }
  }
}
