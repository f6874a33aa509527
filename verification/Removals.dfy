/** Batches that end work: which rows an expiry or a removal ends, how, and that every other row stays as it is. */
module Removals {
  import opened Basics
  import opened Policies
  import opened Attempts
  import opened Jobs
  import opened Tables
  import opened Transactions
  import opened Operations
  import opened Decisions
  import opened Acknowledgements

  /** Waiting, waiting again, or running. */
  predicate Unfinished(job: Job) {
    job.status == Pending || job.status == RetryWait || job.status == Running
  }

  ghost predicate AllValid(jobs: seq<Job>) {
    forall i :: 0 <= i < |jobs| ==> jobs[i].Valid()
  }

  // ---- Expiry ----

  /** The selected rows an expiry ends: unfinished, expired by the selection's clock and by the batch's own. */
  predicate Expires(job: Job, cutoff: Instant, now: Instant) {
    Unfinished(job) && job.origin.expiresAt <= cutoff && job.origin.expiresAt <= now
  }

  /** An expiry batch always commits. It skips exactly the unfinished rows it was given that are past their expiry at both clocks. */
  lemma {:induction false} ExpiryDecides(db: Db, rows: seq<nat>, cutoff: Instant, now: Instant)
    requires AllValid(db.jobs)
    ensures var r := Expire(db, rows, cutoff, now);
            && r.Commit? && r.db == db.(jobs := r.db.jobs) && |r.db.jobs| == |db.jobs| && AllValid(r.db.jobs)
            && forall i :: 0 <= i < |db.jobs| ==>
                 r.db.jobs[i] == if i in rows && Expires(db.jobs[i], cutoff, now) then Ended(db.jobs[i], Skipped, StaleTrigger, now) else db.jobs[i]
    decreases rows
  {
    hide Job.Valid, SkipExpired, Expirable, Expires, Ended;
    if rows != [] {
      var n := |rows| - 1;
      var front, row := rows[..n], rows[n];
      assert rows == front + [row];
      ExpiryDecides(db, front, cutoff, now);
      ExpiresOne(db, Expire(db, front, cutoff, now).db, row, row in front, cutoff, now);
    }
  }

  /** One more row of a batch, which may have ended it before. */
  lemma ExpiresOne(db: Db, done: Db, row: nat, before: bool, cutoff: Instant, now: Instant)
    requires done == db.(jobs := done.jobs) && |done.jobs| == |db.jobs| && AllValid(db.jobs)
    requires row < |db.jobs| ==>
               done.jobs[row] == if before && Expires(db.jobs[row], cutoff, now) then Ended(db.jobs[row], Skipped, StaleTrigger, now)
                                 else db.jobs[row]
    ensures Expirable(done, row, cutoff) && now >= done.jobs[row].origin.expiresAt
            <==> row < |db.jobs| && !before && Expires(db.jobs[row], cutoff, now)
    ensures row < |db.jobs| && !before && Expires(db.jobs[row], cutoff, now) ==>
              && SkipExpired(done.jobs[row], now) == Some(Ended(db.jobs[row], Skipped, StaleTrigger, now))
              && Ended(db.jobs[row], Skipped, StaleTrigger, now).Valid()
  {
    hide Job.Valid, SkipExpired;
    if row < |db.jobs| && Expires(db.jobs[row], cutoff, now) {
      EndingsDecide(db.jobs[row], now);
      EndedValid(db.jobs[row], now);
    }
  }

  lemma EndedValid(job: Job, now: Instant)
    requires job.Valid() && job.Active()
    ensures now >= job.origin.expiresAt ==> Ended(job, Skipped, StaleTrigger, now).Valid()
    ensures job.origin.sourcePost.Some? && now >= job.origin.createdAt ==> Ended(job, Cancelled, SourceRemoved, now).Valid()
  {
    hide ValidOrigin;
  }

  function ExpiringRows(jobs: seq<Job>, rows: seq<nat>, cutoff: Instant, now: Instant): set<nat> {
    set i: nat | i < |jobs| && i in rows && Expires(jobs[i], cutoff, now)
  }

  lemma ExpiringMore(jobs: seq<Job>, rows: seq<nat>, row: nat, cutoff: Instant, now: Instant)
    ensures |ExpiringRows(jobs, rows + [row], cutoff, now)|
            == |ExpiringRows(jobs, rows, cutoff, now)| + (if row < |jobs| && row !in rows && Expires(jobs[row], cutoff, now) then 1 else 0)
  {
    hide Expires;
    assert ExpiringRows(jobs, rows + [row], cutoff, now)
        == ExpiringRows(jobs, rows, cutoff, now) + (if row < |jobs| && Expires(jobs[row], cutoff, now) then {row} else {});
  }

  /** The answer of an expiry batch is how many rows it skipped. */
  lemma {:induction false} ExpiryCounts(db: Db, rows: seq<nat>, cutoff: Instant, now: Instant)
    requires AllValid(db.jobs)
    ensures var r := Expire(db, rows, cutoff, now); r.Commit? && r.result == |ExpiringRows(db.jobs, rows, cutoff, now)|
    decreases rows
  {
    hide Job.Valid, SkipExpired, Expirable, Expires, Ended, ExpiringRows;
    if rows == [] {
      assert ExpiringRows(db.jobs, [], cutoff, now) == {} by { NothingExpiring(db.jobs, cutoff, now); }
    } else {
      var n := |rows| - 1;
      var front, row := rows[..n], rows[n];
      assert rows == front + [row];
      ExpiryDecides(db, front, cutoff, now);
      ExpiryCounts(db, front, cutoff, now);
      ExpiresOne(db, Expire(db, front, cutoff, now).db, row, row in front, cutoff, now);
      ExpiringMore(db.jobs, front, row, cutoff, now);
    }
  }

  lemma NothingExpiring(jobs: seq<Job>, cutoff: Instant, now: Instant)
    ensures ExpiringRows(jobs, [], cutoff, now) == {}
  {
  }

  // ---- Source removal ----

  /** A row of the conversation that lost what it responds to. */
  predicate Loses(db: Db, job: Job, post: Id) {
    && Unfinished(job) && job.origin.sourcePost == Some(post)
    && (|| (post in db.posts && db.posts[post].deleted)
        || (job.origin.sourceReply.Some? && job.origin.sourceReply.value in db.replies && db.replies[job.origin.sourceReply.value].deleted)
        || LostRepost(job.origin))
  }

  /** How such a row ends: cancelled, or skipped if it had expired anyway. */
  function Loss(job: Job, now: Instant): Job {
    if now < job.origin.expiresAt then Ended(job, Cancelled, SourceRemoved, now) else Ended(job, Skipped, StaleTrigger, now)
  }

  /** Cleaning up a conversation ends exactly the rows it was given that lost their source, and aborts only when one of them
      was created after its clock. */
  lemma {:induction false} CleanupDecides(db: Db, post: Id, rows: seq<nat>, now: Instant)
    requires AllValid(db.jobs)
    ensures var r := CancelRemoved(db, post, rows, now);
            && (r.Abort? <==> exists i :: 0 <= i < |db.jobs| && i in rows && Loses(db, db.jobs[i], post) && now < db.jobs[i].origin.createdAt)
            && (r.Commit? ==>
                  && r.db == db.(jobs := r.db.jobs) && |r.db.jobs| == |db.jobs| && AllValid(r.db.jobs)
                  && forall i :: 0 <= i < |db.jobs| ==>
                       r.db.jobs[i] == if i in rows && Loses(db, db.jobs[i], post) then Loss(db.jobs[i], now) else db.jobs[i])
    decreases rows
  {
    hide Job.Valid, Invalidate, Removable, Loses, Loss;
    if rows != [] {
      var n := |rows| - 1;
      var front, row := rows[..n], rows[n];
      assert rows == front + [row];
      CleanupDecides(db, post, front, now);
      if CancelRemoved(db, post, front, now).Commit? {
        CleansOne(db, CancelRemoved(db, post, front, now).db, row, row in front, post, now);
      }
    }
  }

  function LosingRows(db: Db, post: Id, rows: seq<nat>): set<nat> {
    set i: nat | i < |db.jobs| && i in rows && Loses(db, db.jobs[i], post)
  }

  lemma LosingMore(db: Db, post: Id, rows: seq<nat>, row: nat)
    ensures |LosingRows(db, post, rows + [row])|
            == |LosingRows(db, post, rows)| + (if row < |db.jobs| && row !in rows && Loses(db, db.jobs[row], post) then 1 else 0)
  {
    hide Loses;
    assert LosingRows(db, post, rows + [row])
        == LosingRows(db, post, rows) + (if row < |db.jobs| && Loses(db, db.jobs[row], post) then {row} else {});
  }

  /** The answer of a cleanup is how many rows it ended. */
  lemma {:induction false} CleanupCounts(db: Db, post: Id, rows: seq<nat>, now: Instant)
    requires AllValid(db.jobs) && CancelRemoved(db, post, rows, now).Commit?
    ensures CancelRemoved(db, post, rows, now).result == |LosingRows(db, post, rows)|
    decreases rows
  {
    hide Job.Valid, Invalidate, Removable, Loses, Loss, LosingRows;
    if rows == [] {
      assert LosingRows(db, post, []) == {} by { NothingLosing(db, post); }
    } else {
      var n := |rows| - 1;
      var front, row := rows[..n], rows[n];
      assert rows == front + [row];
      CleanupDecides(db, post, front, now);
      CleanupCounts(db, post, front, now);
      CleansOne(db, CancelRemoved(db, post, front, now).db, row, row in front, post, now);
      LosingMore(db, post, front, row);
    }
  }

  lemma NothingLosing(db: Db, post: Id)
    ensures LosingRows(db, post, []) == {}
  {
  }

  /** One more row of a batch, which may have ended it before. */
  lemma CleansOne(db: Db, done: Db, row: nat, before: bool, post: Id, now: Instant)
    requires done == db.(jobs := done.jobs) && |done.jobs| == |db.jobs| && AllValid(db.jobs)
    requires row < |db.jobs| ==> done.jobs[row] == if before && Loses(db, db.jobs[row], post) then Loss(db.jobs[row], now) else db.jobs[row]
    requires before && row < |db.jobs| && Loses(db, db.jobs[row], post) ==> now >= db.jobs[row].origin.createdAt
    ensures Removable(done, row, post) <==> row < |db.jobs| && !before && Loses(db, db.jobs[row], post)
    ensures row < |db.jobs| && !before && Loses(db, db.jobs[row], post) ==>
              && Invalidate(done.jobs[row], done.jobs[row].lease, now)
                 == (if now < db.jobs[row].origin.createdAt then None else Some(Loss(db.jobs[row], now)))
              && (now >= db.jobs[row].origin.createdAt ==> Loss(db.jobs[row], now).Valid())
  {
    hide Job.Valid, Invalidate;
    if row < |db.jobs| && Loses(db, db.jobs[row], post) {
      EndingsDecide(db.jobs[row], now);
      EndedValid(db.jobs[row], now);
    }
  }

  /** A batch ends one row exactly as the test says, and keeps every other. */
  ghost predicate EndsExactly(before: seq<Job>, after: seq<Job>, rows: seq<nat>, lost: Job -> bool, now: Instant) {
    && |after| == |before|
    && forall i :: 0 <= i < |before| ==> after[i] == if i in rows && lost(before[i]) then Loss(before[i], now) else before[i]
  }

  ghost predicate CreatedBy(jobs: seq<Job>, rows: seq<nat>, lost: Job -> bool, now: Instant) {
    forall i :: 0 <= i < |jobs| && i in rows && lost(jobs[i]) ==> jobs[i].origin.createdAt <= now
  }

  /** Deleting a post marks it, and ends every unfinished row it was given of that conversation. */
  lemma PostRemovalDecides(db: Db, post: Id, rows: seq<nat>, now: Instant)
    requires AllValid(db.jobs)
    ensures var r := RemovePost(db, post, rows, now);
            var lost := (job: Job) => Unfinished(job) && job.origin.sourcePost == Some(post);
            && (r.Commit? <==> post in db.posts && !db.posts[post].deleted && CreatedBy(db.jobs, rows, lost, now))
            && (r.Commit? ==>
                  && r.db == db.(posts := db.posts[post := db.posts[post].(deleted := true)], jobs := r.db.jobs)
                  && EndsExactly(db.jobs, r.db.jobs, rows, lost, now))
  {
    hide Job.Valid, CancelRemoved, Loss;
    if post in db.posts {
      CleanupDecides(db.(posts := db.posts[post := db.posts[post].(deleted := true)]), post, rows, now);
    }
  }

  /** Deleting a reply marks it, and ends the unfinished rows it was given of its conversation that respond to it, or had lost
      their source before. */
  lemma ReplyRemovalDecides(db: Db, reply: Id, rows: seq<nat>, now: Instant)
    requires AllValid(db.jobs) && reply in db.replies
    ensures var r, post := RemoveReply(db, reply, rows, now), db.replies[reply].post;
            var lost := (job: Job) =>
              Loses(db, job, post) || (Unfinished(job) && job.origin.sourcePost == Some(post) && job.origin.sourceReply == Some(reply));
            && (r.Commit? <==> !db.replies[reply].deleted && post in db.posts && !db.posts[post].deleted && CreatedBy(db.jobs, rows, lost, now))
            && (r.Commit? ==>
                  && r.db == db.(replies := db.replies[reply := db.replies[reply].(deleted := true)], jobs := r.db.jobs)
                  && EndsExactly(db.jobs, r.db.jobs, rows, lost, now))
  {
    hide Job.Valid, CancelRemoved, Loss;
    var marked := db.(replies := db.replies[reply := db.replies[reply].(deleted := true)]);
    CleanupDecides(marked, db.replies[reply].post, rows, now);
  }

  /** The job table without any reference to a repost. */
  function Unreferred(jobs: seq<Job>, repost: Id): seq<Job> {
    seq(|jobs|, i requires 0 <= i < |jobs| =>
          if jobs[i].origin.sourceRepost == Some(repost) then jobs[i].(origin := jobs[i].origin.(sourceRepost := None)) else jobs[i])
  }

  lemma UnreferredValid(jobs: seq<Job>, repost: Id)
    requires AllValid(jobs)
    ensures AllValid(Unreferred(jobs, repost))
  {
  }

  /** Withdrawing a repost removes its row and every reference to it, when it is still there, and then ends the unfinished rows it was
      given of the conversation that lost their source. */
  lemma RepostRemovalDecides(db: Db, repost: Id, post: Id, rows: seq<nat>, now: Instant)
    requires AllValid(db.jobs)
    ensures var r := RemoveRepost(db, repost, post, rows, now);
            var there := repost in db.reposts && db.reposts[repost].post == post;
            var jobs := if there then Unreferred(db.jobs, repost) else db.jobs;
            var lost := (job: Job) => Loses(db, job, post);
            && (r.Commit? <==> post in db.posts && !db.posts[post].deleted && CreatedBy(jobs, rows, lost, now))
            && (r.Commit? ==>
                  && r.db == db.(reposts := r.db.reposts, jobs := r.db.jobs)
                  && r.db.reposts.Keys == db.reposts.Keys - (if there then {repost} else {})
                  && (forall id :: id in r.db.reposts ==> r.db.reposts[id] == db.reposts[id])
                  && EndsExactly(jobs, r.db.jobs, rows, lost, now))
  {
    hide Job.Valid, CancelRemoved, Loss;
    var seen := Unreposted(db, repost, post);
    if Reposted(db, repost, post) {
      assert Cleared(db, repost).jobs == Unreferred(db.jobs, repost);
      UnreferredValid(db.jobs, repost);
    }
    CleanupDecides(seen, post, rows, now);
  }
}
