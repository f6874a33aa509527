/** The generation database: its tables, and what each transaction reads of them. */
module Tables {
  import opened Basics
  import opened Policies
  import opened Attempts
  import opened Jobs
  import opened Eligibility

  datatype Account = Account(agent: bool, disabled: bool)

  datatype Post = Post(author: Id, quoted: Option<Id>, deleted: bool, createdAt: Instant, content: Content)

  datatype Reply = Reply(post: Id, author: Id, deleted: bool, createdAt: Instant, content: Content)

  datatype Repost = Repost(post: Id, account: Id, createdAt: Instant)

  /** attempts[row] holds the attempts of jobs[row], in attempt order. Rows are never deleted. */
  datatype Db = Db(
    jobs: seq<Job>, attempts: seq<seq<Attempt>>, settings: map<Id, Settings>, accounts: map<Id, Account>,
    posts: map<Id, Post>, replies: map<Id, Reply>, reposts: map<Id, Repost>)
  {
    predicate Shaped() {
      |jobs| == |attempts|
    }

    function WithJob(row: nat, job: Job): Db
      requires row < |jobs|
    {
      this.(jobs := jobs[row := job])
    }

    function WithAttempt(row: nat, k: nat, attempt: Attempt): Db
      requires row < |attempts| && k < |attempts[row]|
    {
      this.(attempts := attempts[row := attempts[row][k := attempt]])
    }

    /** New job rows start without attempts. */
    function WithRows(rows: seq<Job>): Db
      requires |jobs| <= |rows|
    {
      this.(jobs := rows, attempts := attempts + seq(|rows| - |jobs|, _ => []))
    }
  }

  /** A transaction either aborts, leaving nothing, or commits a new database with a result. */
  datatype Tx<+R> = Abort | Commit(db: Db, result: R)

  const LEASE: int := 90_000_000
  const DAILY_TOKENS: int := 500000

  predicate AccountLive(db: Db, id: Id) {
    id in db.accounts && !db.accounts[id].disabled
  }

  /** Whether the canonical source a job responds to is still there and unchanged. */
  predicate SourceValid(db: Db, o: Origin) {
    o.sourcePost.None? ||
    (&& o.sourcePost.value in db.posts
     && var post := db.posts[o.sourcePost.value];
     && !post.deleted && AccountLive(db, post.author)
     && (if o.sourceReply.Some? then
           && o.sourceReply.value in db.replies
           && var reply := db.replies[o.sourceReply.value];
           && reply.post == o.sourcePost.value && !reply.deleted && AccountLive(db, reply.author)
           && Some(reply.author) == o.actor
         else if o.kind == RepostTrigger then
           && o.sourceRepost.Some? && o.sourceRepost.value in db.reposts
           && var repost := db.reposts[o.sourceRepost.value];
           && repost.post == o.sourcePost.value && AccountLive(db, repost.account)
           && Some(repost.account) == o.actor
         else
           && !(o.kind == HumanPost && post.quoted.Some?) && !(o.kind == QuoteTrigger && post.quoted.None?)
           && Some(post.author) == o.actor))
  }

  function SourceCreated(db: Db, o: Origin): Option<Instant> {
    if o.sourcePost.None? || o.sourcePost.value !in db.posts then None
    else if o.sourceReply.Some? && o.sourceReply.value in db.replies then Some(db.replies[o.sourceReply.value].createdAt)
    else if o.sourceRepost.Some? && o.sourceRepost.value in db.reposts then Some(db.reposts[o.sourceRepost.value].createdAt)
    else Some(db.posts[o.sourcePost.value].createdAt)
  }

  /** The settings of an agent that may currently execute. */
  function AgentReady(db: Db, agent: Id): Option<Settings> {
    if agent in db.accounts && db.accounts[agent].agent && !db.accounts[agent].disabled && agent in db.settings
       && db.settings[agent].enabled && db.settings[agent].Valid() && db.settings[agent].Ready()
    then Some(db.settings[agent])
    else None
  }

  datatype Standing = Denied(reason: Code) | Granted(settings: Settings)

  function StandingOf(db: Db, o: Origin): Standing {
    if !SourceValid(db, o) then Denied(SourceRemoved)
    else match AgentReady(db, o.agent)
      case None => Denied(PolicyDisabled)
      case Some(s) => Granted(s)
  }

  predicate PolicyAllows(db: Db, job: Job, s: Settings, now: Instant) {
    Allowed(db.jobs, job, s.policy, s.lastPublishedAt, SourceCreated(db, job.origin), now)
  }

  // ---- Daily accounting ----

  function JobCharge(attempts: seq<Attempt>, day: int): int {
    if attempts == [] then 0
    else
      var last := attempts[|attempts| - 1];
      JobCharge(attempts[..|attempts| - 1], day) + (if last.budgetDay == day then last.Cost() else 0)
  }

  predicate Counts(job: Job, who: Option<Id>) {
    who.None? || job.origin.agent == who.value
  }

  /** Tokens charged to a UTC day by the first n rows, for one agent or for all. */
  function ChargeUpTo(jobs: seq<Job>, attempts: seq<seq<Attempt>>, n: nat, day: int, who: Option<Id>): int
    requires n <= |jobs| && n <= |attempts|
  {
    if n == 0 then 0
    else ChargeUpTo(jobs, attempts, n - 1, day, who) + (if Counts(jobs[n - 1], who) then JobCharge(attempts[n - 1], day) else 0)
  }

  function Charge(db: Db, day: int, who: Option<Id>): int
    requires db.Shaped()
  {
    ChargeUpTo(db.jobs, db.attempts, |db.jobs|, day, who)
  }
}
