/**
 The queue database as a value, and what each transaction of `Store` does to it.

 A transaction is one atomic step at one instant `now`. It starts by reaping; when the
 operation raises, SQLite rolls the whole transaction back, the reaping included, so an
 error leaves the database as it was.
 */
module StoreSpec {
  import opened Common

  const LEASE_SECONDS: Time := 60.0
  const DEFAULT_EXPIRY: Time := 86400.0
  const DAY: Time := 86400.0
  const QUEUE_LIMIT: nat := 1000
  const LOG_LIMIT: nat := 16 * 1024 * 1024
  const LOST_RESULT := "{\"error\": \"worker lease expired; never automatically replayed\"}"

  type JobId = nat

  datatype Status = Queued | Running | CancelRequested | Succeeded | Failed | Cancelled | Expired | Lost

  datatype Operation = Provision | RevokeSource | OtherOperation

  datatype JobStep = JobStep(op: Operation, sha: string)

  datatype Spec = Spec(project: string, expiresIn: Option<Time>, steps: seq<JobStep>)

  /** One row of the `jobs` table. `None` is SQL NULL. */
  datatype Job = Job(spec: Spec, status: Status, created: Time, expires: Time,
                     started: Option<Time>, finished: Option<Time>, worker: Option<string>,
                     lease: Option<string>, leaseUntil: Option<Time>, result: Option<string>,
                     artifact: Option<string>, artifactSha: Option<Hash>, key: string, logBytes: nat)
  {
    predicate Active() { status.Running? || status.CancelRequested? }

    predicate Terminal() {
      status.Succeeded? || status.Failed? || status.Cancelled? || status.Expired? || status.Lost?
    }
  }

  /** The rows of the `logs` table of one job: sequence number to text. */
  type LogRows = map<nat, string>

  datatype Db = Db(jobs: map<JobId, Job>, logs: map<JobId, LogRows>)

  datatype Error = NotFound | WrongLease | LeaseInactive | SequenceCollision | LogLimit | QueueFull
                 | KeyReused | InvalidStatus | ArtifactRequired | CompletionConflict

  datatype Outcome<+T> = Commit(db: Db, value: T) | Rollback(error: Error)
  {
    function After(before: Db): Db { if Commit? then db else before }
  }

  function Log(db: Db, id: JobId): LogRows {
    if id in db.logs then db.logs[id] else map[]
  }

  function SetJob(db: Db, id: JobId, job: Job): Db {
    db.(jobs := db.jobs[id := job])
  }

  // ---------------------------------------------------------------------------------------
  // Transactions
  // ---------------------------------------------------------------------------------------

  function ReapJob(job: Job, now: Time): Job {
    if job.status == Queued && job.expires <= now then
      job.(status := Expired, finished := Some(now))
    else if job.Active() && job.leaseUntil.Some? && job.leaseUntil.value <= now then
      job.(status := if job.status == CancelRequested then Cancelled else Lost,
           finished := Some(now), result := Some(LOST_RESULT))
    else
      job
  }

  function Reap(db: Db, now: Time): Db {
    db.(jobs := map id | id in db.jobs :: ReapJob(db.jobs[id], now))
  }

  ghost function QueuedIds(db: Db): set<JobId> {
    set id | id in db.jobs && db.jobs[id].status == Queued
  }

  ghost predicate HasKey(db: Db, id: JobId, key: string) {
    id in db.jobs && db.jobs[id].key == key
  }

  function NewJob(spec: Spec, key: string, now: Time): Job {
    Job(spec, Queued, now, now + (if spec.expiresIn.Some? then spec.expiresIn.value else DEFAULT_EXPIRY),
        None, None, None, None, None, None, None, None, key, 0)
  }

  ghost function Submit(db: Db, spec: Spec, key: string, newId: JobId, now: Time): Outcome<JobId> {
    var reaped := Reap(db, now);
    if exists id :: HasKey(reaped, id, key) then
      var id :| HasKey(reaped, id, key);
      if reaped.jobs[id].spec == spec then Commit(reaped, id) else Rollback(KeyReused)
    else if |QueuedIds(reaped)| >= QUEUE_LIMIT then
      Rollback(QueueFull)
    else
      Commit(SetJob(reaped, newId, NewJob(spec, key, now)), newId)
  }

  ghost predicate SomeActive(db: Db) {
    exists id :: id in db.jobs && db.jobs[id].Active()
  }

  predicate Eligible(db: Db, projects: seq<string>, id: JobId) {
    id in db.jobs && db.jobs[id].status == Queued && db.jobs[id].spec.project in projects
  }

  /** What `claim` selects: nothing while a job is active, else an oldest queued job of these projects. */
  ghost predicate ClaimChoice(db: Db, projects: seq<string>, pick: Option<JobId>) {
    match pick
    case None => SomeActive(db) || (forall id :: !Eligible(db, projects, id))
    case Some(id) =>
      && !SomeActive(db)
      && Eligible(db, projects, id)
      && (forall other :: Eligible(db, projects, other) ==> db.jobs[id].created <= db.jobs[other].created)
  }

  function Leased(job: Job, worker: string, lease: string, now: Time): Job {
    job.(status := Running, worker := Some(worker), lease := Some(lease),
         leaseUntil := Some(now + LEASE_SECONDS), started := Some(now))
  }

  function Claim(db: Db, pick: Option<JobId>, worker: string, lease: string, now: Time): Db
    requires pick.Some? ==> pick.value in db.jobs
  {
    var reaped := Reap(db, now);
    match pick
    case None => reaped
    case Some(id) => SetJob(reaped, id, Leased(reaped.jobs[id], worker, lease, now))
  }

  /** The check in `Store.owned`; it runs inside a transaction, after reaping. */
  function Owned(db: Db, id: JobId, lease: string): Result<Job, Error> {
    if id !in db.jobs then Err(NotFound)
    else if db.jobs[id].lease != Some(lease) then Err(WrongLease)
    else if !db.jobs[id].Active() then Err(LeaseInactive)
    else Ok(db.jobs[id])
  }

  function Heartbeat(db: Db, id: JobId, lease: string, now: Time): Outcome<bool> {
    var reaped := Reap(db, now);
    match Owned(reaped, id, lease)
    case Err(e) => Rollback(e)
    case Ok(job) =>
      Commit(SetJob(reaped, id, job.(leaseUntil := Some(now + LEASE_SECONDS))), job.status == CancelRequested)
  }

  function CancelJob(job: Job, now: Time): Job {
    if job.status == Queued then job.(status := Cancelled, finished := Some(now))
    else if job.status == Running then job.(status := CancelRequested)
    else job
  }

  function Cancel(db: Db, id: JobId, now: Time): Outcome<Job> {
    var reaped := Reap(db, now);
    if id !in reaped.jobs then Rollback(NotFound)
    else
      var job := CancelJob(reaped.jobs[id], now);
      Commit(SetJob(reaped, id, job), job)
  }

  function AddLogRow(db: Db, id: JobId, seqno: nat, text: string): Db
    requires id in db.jobs
  {
    var job := db.jobs[id];
    Db(db.jobs[id := job.(logBytes := job.logBytes + Utf8(text))], db.logs[id := Log(db, id)[seqno := text]])
  }

  function AppendLog(db: Db, id: JobId, lease: string, seqno: nat, text: string, now: Time): Outcome<()> {
    var reaped := Reap(db, now);
    match Owned(reaped, id, lease)
    case Err(e) => Rollback(e)
    case Ok(job) =>
      var rows := Log(reaped, id);
      if seqno in rows then
        if rows[seqno] == text then Commit(reaped, ()) else Rollback(SequenceCollision)
      else if job.logBytes + Utf8(text) > LOG_LIMIT then
        Rollback(LogLimit)
      else
        Commit(AddLogRow(reaped, id, seqno, text), ())
  }

  /** The second transaction of an artifact upload: recheck the lease, then record the file. */
  function PublishArtifact(db: Db, id: JobId, lease: string, file: string, sha: Hash, now: Time): Outcome<()> {
    var reaped := Reap(db, now);
    match Owned(reaped, id, lease)
    case Err(e) => Rollback(e)
    case Ok(job) => Commit(SetJob(reaped, id, job.(artifact := Some(file), artifactSha := Some(sha))), ())
  }

  function LeaseText(job: Job): string {
    if job.lease.Some? then job.lease.value else ""
  }

  function Finish(db: Db, id: JobId, lease: string, status: Status, result: string, now: Time): Outcome<Job> {
    if !status.Succeeded? && !status.Failed? && !status.Cancelled? then Rollback(InvalidStatus) else
    var reaped := Reap(db, now);
    if id in reaped.jobs && reaped.jobs[id].Terminal() && LeaseText(reaped.jobs[id]) == lease then
      var job := reaped.jobs[id];
      if job.result == Some(result) && (job.status == status || job.status == Cancelled) then Commit(reaped, job)
      else Rollback(CompletionConflict)
    else
      match Owned(reaped, id, lease)
      case Err(e) => Rollback(e)
      case Ok(job) =>
        var final := if job.status == CancelRequested then Cancelled else status;
        if final == Succeeded && job.artifact.None? then Rollback(ArtifactRequired)
        else
          var done := job.(status := final, result := Some(result), finished := Some(now));
          Commit(SetJob(reaped, id, done), done)
  }

  predicate FinishedBefore(job: Job, cutoff: Time) {
    job.finished.Some? && job.finished.value < cutoff
  }

  function Prune(db: Db, days: int, now: Time): Db {
    var reaped := Reap(db, now);
    var cutoff := now - days as Time * DAY;
    Db(map id | id in reaped.jobs && !FinishedBefore(reaped.jobs[id], cutoff) :: reaped.jobs[id],
       map id | id in reaped.logs && id in reaped.jobs && !FinishedBefore(reaped.jobs[id], cutoff) :: reaped.logs[id])
  }

  /** What `logs` returns: the first `limit` rows after a cursor, in order. */
  datatype LogRow = LogRow(seqno: nat, text: string)

  const PAGE_LIMIT: nat := 100

  ghost predicate IsPage(rows: LogRows, after: int, page: seq<LogRow>) {
    && |page| <= PAGE_LIMIT
    && (forall i :: 0 <= i < |page| ==>
          page[i].seqno in rows && rows[page[i].seqno] == page[i].text && page[i].seqno > after)
    && (forall i, j :: 0 <= i < j < |page| ==> page[i].seqno < page[j].seqno)
    && (forall k :: k in rows && k > after && (forall i :: 0 <= i < |page| ==> page[i].seqno != k) ==>
          |page| == PAGE_LIMIT && forall i :: 0 <= i < |page| ==> page[i].seqno < k)
  }

  // ---------------------------------------------------------------------------------------
  // Calls, so that runs of the store are sequences
  // ---------------------------------------------------------------------------------------

  datatype Call =
    | CallSubmit(spec: Spec, key: string, newId: JobId)
    | CallClaim(worker: string, projects: seq<string>, lease: string, pick: Option<JobId>)
    | CallHeartbeat(id: JobId, lease: string)
    | CallCancel(id: JobId)
    | CallAppendLog(id: JobId, lease: string, seqno: nat, text: string)
    | CallPublish(id: JobId, lease: string, file: string, sha: Hash)
    | CallFinish(id: JobId, lease: string, status: Status, result: string)
    | CallPrune(days: int)
    | CallRead

  /** Random job ids and lease tokens are fresh, tokens are not empty, and `claim` picks as it must. */
  ghost predicate Allowed(db: Db, call: Call, now: Time) {
    match call
    case CallSubmit(_, _, newId) => newId !in db.jobs
    case CallClaim(_, projects, lease, pick) =>
      && ClaimChoice(Reap(db, now), projects, pick)
      && lease != ""
      && (forall id :: id in db.jobs ==> db.jobs[id].lease != Some(lease))
    case _ => true
  }

  ghost function Perform(db: Db, call: Call, now: Time): Db
    requires Allowed(db, call, now)
  {
    match call
    case CallSubmit(spec, key, newId) => Submit(db, spec, key, newId, now).After(db)
    case CallClaim(worker, _, lease, pick) => Claim(db, pick, worker, lease, now)
    case CallHeartbeat(id, lease) => Heartbeat(db, id, lease, now).After(db)
    case CallCancel(id) => Cancel(db, id, now).After(db)
    case CallAppendLog(id, lease, seqno, text) => AppendLog(db, id, lease, seqno, text, now).After(db)
    case CallPublish(id, lease, file, sha) => PublishArtifact(db, id, lease, file, sha, now).After(db)
    case CallFinish(id, lease, status, result) => Finish(db, id, lease, status, result, now).After(db)
    case CallPrune(days) => Prune(db, days, now)
    case CallRead => Reap(db, now)
  }

  const EMPTY_DB := Db(map[], map[])

  /** `dbs` are the states of a run that performs `calls` at the instants `times`. */
  ghost predicate IsRun(dbs: seq<Db>, calls: seq<Call>, times: seq<Time>) {
    && |dbs| == |calls| + 1 && |times| == |calls|
    && dbs[0] == EMPTY_DB
    && (forall i, j :: 0 <= i < j < |times| ==> times[i] <= times[j])
    && (forall i :: 0 <= i < |calls| ==>
          Allowed(dbs[i], calls[i], times[i]) && dbs[i + 1] == Perform(dbs[i], calls[i], times[i]))
  }
}
