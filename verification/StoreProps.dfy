/** What every run of the queue keeps: the store invariant, and the life cycle of one job. */
module StoreProps {
  import opened Common
  import opened StoreSpec

  // ---------------------------------------------------------------------------------------
  // The store invariant
  // ---------------------------------------------------------------------------------------

  ghost function RowSizes(rows: LogRows): map<nat, nat> {
    map k | k in rows :: Utf8(rows[k])
  }

  ghost predicate JobOk(job: Job) {
    && (job.finished.Some? <==> job.Terminal())
    && (job.Active() ==> job.lease.Some? && job.leaseUntil.Some? && job.started.Some?)
    && (job.status == Queued ==> job.lease.None?)
    && (job.status == Succeeded ==> job.artifact.Some?)
    && (job.artifact.Some? <==> job.artifactSha.Some?)
    && job.logBytes <= LOG_LIMIT
  }

  ghost predicate JobsOk(jobs: map<JobId, Job>) {
    forall id {:trigger JobOk(jobs[id])} :: id in jobs ==> JobOk(jobs[id])
  }

  /** A queued job that has expired, or an active one whose lease is over. */
  predicate Overdue(job: Job, now: Time) {
    || (job.status == Queued && job.expires <= now)
    || (job.Active() && job.leaseUntil.Some? && job.leaseUntil.value <= now)
  }

  /** An overdue job has ended now and kept everything but its outcome; any other is as it was. */
  predicate Ends(before: Job, after: Job, now: Time) {
    && !Overdue(after, now)
    && (!Overdue(before, now) ==> after == before)
    && (Overdue(before, now) ==>
          && after.finished == Some(now) && after.Terminal()
          && (after.status == Expired <==> before.status == Queued)
          && (after.status == Cancelled <==> before.status == CancelRequested)
          && (after.status == Lost <==> before.status == Running)
          && after.result == (if before.status == Queued then before.result
                              else Some("{\"error\": \"worker lease expired; never automatically replayed\"}"))
          && before == after.(status := before.status, finished := before.finished, result := before.result))
  }

  lemma ReapEnds(job: Job, now: Time)
    ensures Ends(job, ReapJob(job, now), now)
  {
  }

  /** At most one job holds the execution slot. */
  ghost predicate SingleActive(jobs: map<JobId, Job>) {
    forall a, b {:trigger jobs[a].Active(), jobs[b].Active()} ::
      a in jobs && b in jobs && jobs[a].Active() && jobs[b].Active() ==> a == b
  }

  ghost predicate UniqueKeys(jobs: map<JobId, Job>) {
    forall a, b {:trigger jobs[a].key, jobs[b].key} ::
      a in jobs && b in jobs && jobs[a].key == jobs[b].key ==> a == b
  }

  ghost predicate UniqueLeases(jobs: map<JobId, Job>) {
    forall a, b {:trigger jobs[a].lease, jobs[b].lease} ::
      a in jobs && b in jobs && jobs[a].lease.Some? && jobs[a].lease == jobs[b].lease ==> a == b
  }

  ghost predicate LogsOk(db: Db) {
    && db.logs.Keys <= db.jobs.Keys
    && (forall id {:trigger db.jobs[id].logBytes} :: id in db.jobs ==>
          db.jobs[id].logBytes == Sum(RowSizes(Log(db, id))))
  }

  ghost predicate Inv(db: Db) {
    && JobsOk(db.jobs)
    && SingleActive(db.jobs)
    && UniqueKeys(db.jobs)
    && UniqueLeases(db.jobs)
    && LogsOk(db)
    && |QueuedIds(db)| <= QUEUE_LIMIT
  }

  lemma {:induction false} SubsetSize<T>(small: set<T>, big: set<T>)
    requires small <= big
    ensures |small| <= |big|
    decreases |small|
  {
    if small != {} {
      var x :| x in small;
      SubsetSize(small - {x}, big - {x});
    }
  }

  // Most transactions are quiet: rows may end or disappear, but no row enters the queue or the slot.

  ghost predicate QuietRow(before: Job, after: Job) {
    && JobOk(after)
    && after.key == before.key && after.lease == before.lease
    && (after.status == Queued ==> before.status == Queued)
    && (after.Active() ==> before.Active())
  }

  ghost predicate Quiet(before: Db, after: Db) {
    && after.jobs.Keys <= before.jobs.Keys
    && (forall id {:trigger after.jobs[id]} :: id in after.jobs ==> QuietRow(before.jobs[id], after.jobs[id]))
  }

  ghost predicate SameLogs(before: Db, after: Db)
    requires after.jobs.Keys <= before.jobs.Keys
  {
    && after.logs.Keys <= after.jobs.Keys
    && (forall id {:trigger after.jobs[id]} :: id in after.jobs ==>
          after.jobs[id].logBytes == before.jobs[id].logBytes && Log(after, id) == Log(before, id))
  }

  lemma QuietKeepsRows(before: Db, after: Db)
    requires Inv(before) && Quiet(before, after)
    ensures JobsOk(after.jobs) && SingleActive(after.jobs)
  {
  }

  lemma QuietKeepsKeys(before: Db, after: Db)
    requires Inv(before) && Quiet(before, after)
    ensures UniqueKeys(after.jobs) && UniqueLeases(after.jobs)
  {
  }

  lemma QuietKeepsInv(before: Db, after: Db)
    requires Inv(before) && Quiet(before, after) && LogsOk(after)
    ensures Inv(after)
  {
    QuietKeepsRows(before, after);
    QuietKeepsKeys(before, after);
    SubsetSize(QueuedIds(after), QueuedIds(before));
  }

  lemma QuietSameLogsKeepsInv(before: Db, after: Db)
    requires Inv(before) && Quiet(before, after) && SameLogs(before, after)
    ensures Inv(after)
  {
    assert LogsOk(after);
    QuietKeepsInv(before, after);
  }

  lemma ReapQuietRow(job: Job, now: Time)
    requires JobOk(job)
    ensures QuietRow(job, ReapJob(job, now))
  {
  }

  lemma ReapIsQuiet(db: Db, now: Time)
    requires JobsOk(db.jobs) && LogsOk(db)
    ensures Quiet(db, Reap(db, now)) && SameLogs(db, Reap(db, now))
  {
    forall id | id in db.jobs
      ensures QuietRow(db.jobs[id], Reap(db, now).jobs[id])
      ensures Reap(db, now).jobs[id].logBytes == db.jobs[id].logBytes
    {
      assert JobOk(db.jobs[id]);
      ReapQuietRow(db.jobs[id], now);
    }
  }

  lemma ReapKeepsInv(db: Db, now: Time)
    requires Inv(db)
    ensures Inv(Reap(db, now))
  {
    ReapIsQuiet(db, now);
    QuietSameLogsKeepsInv(db, Reap(db, now));
  }

  lemma SetJobIsQuiet(db: Db, id: JobId, job: Job)
    requires JobsOk(db.jobs) && db.logs.Keys <= db.jobs.Keys
    requires id in db.jobs && QuietRow(db.jobs[id], job) && job.logBytes == db.jobs[id].logBytes
    ensures Quiet(db, SetJob(db, id, job)) && SameLogs(db, SetJob(db, id, job))
  {
    forall other | other in db.jobs ensures QuietRow(db.jobs[other], SetJob(db, id, job).jobs[other]) {
      assert JobOk(db.jobs[other]);
    }
  }

  lemma SetJobKeepsInv(db: Db, id: JobId, job: Job)
    requires Inv(db) && id in db.jobs && QuietRow(db.jobs[id], job) && job.logBytes == db.jobs[id].logBytes
    ensures Inv(SetJob(db, id, job))
  {
    SetJobIsQuiet(db, id, job);
    QuietSameLogsKeepsInv(db, SetJob(db, id, job));
  }

  lemma PruneIsQuiet(db: Db, days: int, now: Time)
    requires JobsOk(Reap(db, now).jobs)
    ensures Prune(db, days, now).jobs.Keys <= Reap(db, now).jobs.Keys
    ensures Quiet(Reap(db, now), Prune(db, days, now)) && SameLogs(Reap(db, now), Prune(db, days, now))
  {
    var reaped, next := Reap(db, now), Prune(db, days, now);
    forall id | id in next.jobs ensures QuietRow(reaped.jobs[id], next.jobs[id]) {
      assert JobOk(reaped.jobs[id]);
    }
  }

  lemma PruneKeepsInv(db: Db, days: int, now: Time)
    requires Inv(db)
    ensures Inv(Prune(db, days, now))
  {
    ReapKeepsInv(db, now);
    PruneIsQuiet(db, days, now);
    QuietSameLogsKeepsInv(Reap(db, now), Prune(db, days, now));
  }

  lemma InsertKeepsRows(db: Db, id: JobId, job: Job)
    requires Inv(db) && id !in db.jobs && JobOk(job) && job.status == Queued
    ensures JobsOk(db.jobs[id := job]) && SingleActive(db.jobs[id := job]) && UniqueLeases(db.jobs[id := job])
  {
    var next := db.jobs[id := job];
    forall other | other in next ensures JobOk(next[other]) {
      assert other != id ==> JobOk(db.jobs[other]);
    }
  }

  lemma InsertKeepsKeys(db: Db, id: JobId, job: Job)
    requires Inv(db) && id !in db.jobs
    requires forall other :: other in db.jobs ==> db.jobs[other].key != job.key
    ensures UniqueKeys(db.jobs[id := job])
  {
  }

  lemma InsertKeepsLogs(db: Db, id: JobId, job: Job)
    requires Inv(db) && id !in db.jobs && job.logBytes == 0
    ensures LogsOk(SetJob(db, id, job))
  {
    var next := SetJob(db, id, job);
    assert RowSizes(Log(next, id)) == map[];
    assert forall other :: other in db.jobs ==> Log(next, other) == Log(db, other);
  }

  lemma InsertKeepsInv(db: Db, id: JobId, job: Job)
    requires Inv(db) && id !in db.jobs && |QueuedIds(db)| < QUEUE_LIMIT
    requires JobOk(job) && job.status == Queued && job.logBytes == 0
    requires forall other :: other in db.jobs ==> db.jobs[other].key != job.key
    ensures Inv(SetJob(db, id, job))
  {
    InsertKeepsRows(db, id, job);
    InsertKeepsKeys(db, id, job);
    InsertKeepsLogs(db, id, job);
    assert QueuedIds(SetJob(db, id, job)) == QueuedIds(db) + {id};
  }

  lemma SubmitKeepsInv(db: Db, spec: Spec, key: string, newId: JobId, now: Time)
    requires Inv(db) && newId !in db.jobs
    ensures Inv(Submit(db, spec, key, newId, now).After(db))
  {
    ReapKeepsInv(db, now);
    var reaped := Reap(db, now);
    if !(exists id :: HasKey(reaped, id, key)) && |QueuedIds(reaped)| < QUEUE_LIMIT {
      assert forall id :: id in reaped.jobs ==> !HasKey(reaped, id, key);
      InsertKeepsInv(reaped, newId, NewJob(spec, key, now));
    }
  }

  lemma TakeSlotKeepsRows(db: Db, id: JobId, job: Job)
    requires Inv(db) && !SomeActive(db) && id in db.jobs && JobOk(job) && job.key == db.jobs[id].key
    requires forall other :: other in db.jobs ==> db.jobs[other].lease != job.lease
    ensures JobsOk(db.jobs[id := job]) && SingleActive(db.jobs[id := job])
    ensures UniqueKeys(db.jobs[id := job]) && UniqueLeases(db.jobs[id := job])
  {
    var next := db.jobs[id := job];
    forall other | other in next ensures JobOk(next[other]) {
      assert other != id ==> JobOk(db.jobs[other]);
    }
  }

  lemma TakeSlotKeepsInv(db: Db, id: JobId, job: Job)
    requires Inv(db) && !SomeActive(db) && id in db.jobs && JobOk(job)
    requires job.key == db.jobs[id].key && job.logBytes == db.jobs[id].logBytes && job.status == Running
    requires forall other :: other in db.jobs ==> db.jobs[other].lease != job.lease
    ensures Inv(SetJob(db, id, job))
  {
    var next := SetJob(db, id, job);
    TakeSlotKeepsRows(db, id, job);
    SubsetSize(QueuedIds(next), QueuedIds(db));
    assert forall other :: other in db.jobs ==> Log(next, other) == Log(db, other);
  }

  lemma PickIsFree(db: Db, projects: seq<string>, lease: string, id: JobId, now: Time)
    requires Inv(db) && ClaimChoice(Reap(db, now), projects, Some(id))
    requires forall other :: other in db.jobs ==> db.jobs[other].lease != Some(lease)
    ensures var reaped := Reap(db, now);
            && id in reaped.jobs && reaped.jobs[id].status == Queued && JobOk(reaped.jobs[id]) && !SomeActive(reaped)
            && (forall other :: other in reaped.jobs ==> reaped.jobs[other].lease != Some(lease))
  {
    assert Eligible(Reap(db, now), projects, id);
    assert JobOk(db.jobs[id]);
  }

  lemma LeasedOk(job: Job, worker: string, lease: string, now: Time)
    requires JobOk(job) && job.status == Queued
    ensures JobOk(Leased(job, worker, lease, now))
  {
  }

  lemma ClaimKeepsInv(db: Db, worker: string, projects: seq<string>, lease: string, pick: Option<JobId>, now: Time)
    requires Inv(db) && Allowed(db, CallClaim(worker, projects, lease, pick), now)
    ensures Inv(Claim(db, pick, worker, lease, now))
  {
    ReapKeepsInv(db, now);
    if pick.Some? {
      var reaped := Reap(db, now);
      PickIsFree(db, projects, lease, pick.value, now);
      LeasedOk(reaped.jobs[pick.value], worker, lease, now);
      TakeSlotKeepsInv(reaped, pick.value, Leased(reaped.jobs[pick.value], worker, lease, now));
    }
  }

  lemma RowSizesWith(rows: LogRows, seqno: nat, text: string)
    requires seqno !in rows
    ensures Sum(RowSizes(rows[seqno := text])) == Sum(RowSizes(rows)) + Utf8(text)
  {
    SumInsert(RowSizes(rows), seqno, Utf8(text));
    assert RowSizes(rows[seqno := text]) == RowSizes(rows)[seqno := Utf8(text)];
  }

  lemma AddLogRowKeepsLogs(db: Db, id: JobId, seqno: nat, text: string)
    requires LogsOk(db) && id in db.jobs && seqno !in Log(db, id)
    ensures LogsOk(AddLogRow(db, id, seqno, text))
  {
    var next := AddLogRow(db, id, seqno, text);
    RowSizesWith(Log(db, id), seqno, text);
    forall other | other in next.jobs ensures next.jobs[other].logBytes == Sum(RowSizes(Log(next, other))) {
      assert db.jobs[other].logBytes == Sum(RowSizes(Log(db, other)));
    }
  }

  lemma AddLogRowKeepsInv(db: Db, id: JobId, seqno: nat, text: string)
    requires Inv(db) && id in db.jobs && seqno !in Log(db, id)
    requires db.jobs[id].logBytes + Utf8(text) <= LOG_LIMIT
    ensures Inv(AddLogRow(db, id, seqno, text))
  {
    var next := AddLogRow(db, id, seqno, text);
    forall other | other in next.jobs ensures QuietRow(db.jobs[other], next.jobs[other]) {
      assert JobOk(db.jobs[other]);
    }
    AddLogRowKeepsLogs(db, id, seqno, text);
    QuietKeepsInv(db, next);
  }

  lemma AppendLogKeepsInv(db: Db, id: JobId, lease: string, seqno: nat, text: string, now: Time)
    requires Inv(db)
    ensures Inv(AppendLog(db, id, lease, seqno, text, now).After(db))
  {
    ReapKeepsInv(db, now);
    var reaped := Reap(db, now);
    var outcome := AppendLog(db, id, lease, seqno, text, now);
    if outcome.Commit? && seqno !in Log(reaped, id) {
      AddLogRowKeepsInv(reaped, id, seqno, text);
    }
  }

  lemma OwnedUpdateKeepsInv(db: Db, id: JobId, lease: string, now: Time, job: Job)
    requires Inv(db) && Owned(Reap(db, now), id, lease).Ok?
    requires QuietRow(Reap(db, now).jobs[id], job) && job.logBytes == Reap(db, now).jobs[id].logBytes
    ensures Inv(SetJob(Reap(db, now), id, job))
  {
    ReapKeepsInv(db, now);
    SetJobKeepsInv(Reap(db, now), id, job);
  }

  lemma HeartbeatKeepsInv(db: Db, id: JobId, lease: string, now: Time)
    requires Inv(db)
    ensures Inv(Heartbeat(db, id, lease, now).After(db))
  {
    var reaped := Reap(db, now);
    if Owned(reaped, id, lease).Ok? {
      ReapKeepsInv(db, now);
      assert JobOk(reaped.jobs[id]);
      OwnedUpdateKeepsInv(db, id, lease, now, reaped.jobs[id].(leaseUntil := Some(now + LEASE_SECONDS)));
    }
  }

  lemma CancelQuietRow(job: Job, now: Time)
    requires JobOk(job)
    ensures QuietRow(job, CancelJob(job, now))
  {
  }

  lemma CancelKeepsInv(db: Db, id: JobId, now: Time)
    requires Inv(db)
    ensures Inv(Cancel(db, id, now).After(db))
  {
    var reaped := Reap(db, now);
    ReapKeepsInv(db, now);
    if id in reaped.jobs {
      assert JobOk(reaped.jobs[id]);
      CancelQuietRow(reaped.jobs[id], now);
      SetJobKeepsInv(reaped, id, CancelJob(reaped.jobs[id], now));
    }
  }

  lemma PublishKeepsInv(db: Db, id: JobId, lease: string, file: string, sha: Hash, now: Time)
    requires Inv(db)
    ensures Inv(PublishArtifact(db, id, lease, file, sha, now).After(db))
  {
    var reaped := Reap(db, now);
    if Owned(reaped, id, lease).Ok? {
      ReapKeepsInv(db, now);
      assert JobOk(reaped.jobs[id]);
      OwnedUpdateKeepsInv(db, id, lease, now, reaped.jobs[id].(artifact := Some(file), artifactSha := Some(sha)));
    }
  }

  lemma FinishKeepsInv(db: Db, id: JobId, lease: string, status: Status, result: string, now: Time)
    requires Inv(db)
    ensures Inv(Finish(db, id, lease, status, result, now).After(db))
  {
    var reaped := Reap(db, now);
    ReapKeepsInv(db, now);
    var outcome := Finish(db, id, lease, status, result, now);
    if outcome.Commit? && !reaped.jobs[id].Terminal() {
      assert JobOk(reaped.jobs[id]);
      OwnedUpdateKeepsInv(db, id, lease, now, outcome.value);
    }
  }

  /** Every transaction keeps the invariant, whether it commits or rolls back. */
  lemma PerformKeepsInv(db: Db, call: Call, now: Time)
    requires Inv(db) && Allowed(db, call, now)
    ensures Inv(Perform(db, call, now))
  {
    match call {
      case CallSubmit(spec, key, newId) => SubmitKeepsInv(db, spec, key, newId, now);
      case CallClaim(worker, projects, lease, pick) => ClaimKeepsInv(db, worker, projects, lease, pick, now);
      case CallHeartbeat(id, lease) => HeartbeatKeepsInv(db, id, lease, now);
      case CallCancel(id) => CancelKeepsInv(db, id, now);
      case CallAppendLog(id, lease, seqno, text) => AppendLogKeepsInv(db, id, lease, seqno, text, now);
      case CallPublish(id, lease, file, sha) => PublishKeepsInv(db, id, lease, file, sha, now);
      case CallFinish(id, lease, status, result) => FinishKeepsInv(db, id, lease, status, result, now);
      case CallPrune(days) => PruneKeepsInv(db, days, now);
      case CallRead => ReapKeepsInv(db, now);
    }
  }

  /** In every reachable state of the store the invariant holds. */
  lemma {:induction false} RunKeepsInv(dbs: seq<Db>, calls: seq<Call>, times: seq<Time>, n: nat)
    requires IsRun(dbs, calls, times) && n < |dbs|
    ensures Inv(dbs[n])
  {
    if n == 0 {
      assert QueuedIds(EMPTY_DB) == {};
    } else {
      RunKeepsInv(dbs, calls, times, n - 1);
      PerformKeepsInv(dbs[n - 1], calls[n - 1], times[n - 1]);
    }
  }

  // ---------------------------------------------------------------------------------------
  // The life cycle of a job
  // ---------------------------------------------------------------------------------------

  function Rank(status: Status): nat {
    match status
    case Queued => 3
    case Running => 2
    case CancelRequested => 1
    case _ => 0
  }

  /** How one row may change over any number of transactions. */
  ghost predicate Evolves(before: Job, after: Job) {
    && after.spec == before.spec && after.key == before.key
    && after.created == before.created && after.expires == before.expires
    && (after.status == before.status || Rank(after.status) < Rank(before.status))
    && (before.Terminal() ==> after == before)
    && (before.lease.Some? ==> after.lease == before.lease && after.started == before.started)
    && (after.lease.Some? && before.lease.None? ==> before.status == Queued)
    && (before.status == CancelRequested ==> after.status.CancelRequested? || after.status.Cancelled?)
    && before.logBytes <= after.logBytes
  }

  /** A row evolves, its log rows are only ever added to, and a finished job's log is frozen. */
  ghost predicate Moves(before: Job, rows: LogRows, after: Job, rows': LogRows) {
    && Evolves(before, after)
    && (forall k :: k in rows ==> k in rows' && rows'[k] == rows[k])
    && (before.Terminal() ==> rows' == rows)
  }

  ghost predicate RowMoves(before: Db, after: Db, id: JobId)
    requires id in before.jobs && id in after.jobs
  {
    Moves(before.jobs[id], Log(before, id), after.jobs[id], Log(after, id))
  }

  lemma MovesTransitive(a: Job, aRows: LogRows, b: Job, bRows: LogRows, c: Job, cRows: LogRows)
    requires Moves(a, aRows, b, bRows) && Moves(b, bRows, c, cRows)
    ensures Moves(a, aRows, c, cRows)
  {
  }

  lemma ReapMoves(db: Db, now: Time, id: JobId)
    requires id in db.jobs && JobOk(db.jobs[id])
    ensures RowMoves(db, Reap(db, now), id)
  {
  }

  lemma AfterReapMoves(db: Db, after: Db, now: Time, id: JobId)
    requires id in db.jobs && JobOk(db.jobs[id]) && id in after.jobs && RowMoves(Reap(db, now), after, id)
    ensures RowMoves(db, after, id)
  {
    ReapMoves(db, now, id);
    var reaped := Reap(db, now);
    MovesTransitive(db.jobs[id], Log(db, id), reaped.jobs[id], Log(reaped, id), after.jobs[id], Log(after, id));
  }

  lemma SetJobMoves(db: Db, target: JobId, job: Job, id: JobId)
    requires target in db.jobs ==> Evolves(db.jobs[target], job)
    requires id in db.jobs
    ensures RowMoves(db, SetJob(db, target, job), id)
  {
  }

  lemma FinishMoves(db: Db, target: JobId, lease: string, status: Status, result: string, now: Time, id: JobId)
    requires id in db.jobs && JobOk(db.jobs[id])
    ensures RowMoves(db, Finish(db, target, lease, status, result, now).After(db), id)
  {
    var reaped, outcome := Reap(db, now), Finish(db, target, lease, status, result, now);
    if outcome.Commit? {
      if !reaped.jobs[target].Terminal() {
        SetJobMoves(reaped, target, outcome.value, id);
      }
      AfterReapMoves(db, outcome.db, now, id);
    }
  }

  lemma AppendLogMoves(db: Db, target: JobId, lease: string, seqno: nat, text: string, now: Time, id: JobId)
    requires id in db.jobs && JobOk(db.jobs[id])
    ensures RowMoves(db, AppendLog(db, target, lease, seqno, text, now).After(db), id)
  {
    var outcome := AppendLog(db, target, lease, seqno, text, now);
    if outcome.Commit? {
      AfterReapMoves(db, outcome.db, now, id);
    }
  }

  lemma QueueCallMoves(db: Db, call: Call, now: Time, id: JobId)
    requires id in db.jobs && JobOk(db.jobs[id]) && Allowed(db, call, now)
    requires call.CallClaim? || call.CallSubmit?
    ensures id in Perform(db, call, now).jobs && RowMoves(db, Perform(db, call, now), id)
  {
    var after := Perform(db, call, now);
    if after != db {
      AfterReapMoves(db, after, now, id);
    }
  }

  lemma HeartbeatMoves(db: Db, target: JobId, lease: string, now: Time, id: JobId)
    requires id in db.jobs && JobOk(db.jobs[id])
    ensures RowMoves(db, Heartbeat(db, target, lease, now).After(db), id)
  {
    var reaped, outcome := Reap(db, now), Heartbeat(db, target, lease, now);
    if outcome.Commit? {
      SetJobMoves(reaped, target, outcome.db.jobs[target], id);
      AfterReapMoves(db, outcome.db, now, id);
    }
  }

  lemma CancelMoves(db: Db, target: JobId, now: Time, id: JobId)
    requires id in db.jobs && JobOk(db.jobs[id])
    ensures RowMoves(db, Cancel(db, target, now).After(db), id)
  {
    var reaped, outcome := Reap(db, now), Cancel(db, target, now);
    if outcome.Commit? {
      SetJobMoves(reaped, target, outcome.value, id);
      AfterReapMoves(db, outcome.db, now, id);
    }
  }

  lemma PublishMoves(db: Db, target: JobId, lease: string, file: string, sha: Hash, now: Time, id: JobId)
    requires id in db.jobs && JobOk(db.jobs[id])
    ensures RowMoves(db, PublishArtifact(db, target, lease, file, sha, now).After(db), id)
  {
    var reaped, outcome := Reap(db, now), PublishArtifact(db, target, lease, file, sha, now);
    if outcome.Commit? {
      SetJobMoves(reaped, target, outcome.db.jobs[target], id);
      AfterReapMoves(db, outcome.db, now, id);
    }
  }

  lemma CallMoves(db: Db, call: Call, now: Time, id: JobId)
    requires id in db.jobs && JobOk(db.jobs[id]) && Allowed(db, call, now)
    requires id in Perform(db, call, now).jobs
    ensures RowMoves(db, Perform(db, call, now), id)
  {
    match call {
      case CallAppendLog(target, lease, seqno, text) => AppendLogMoves(db, target, lease, seqno, text, now, id);
      case CallFinish(target, lease, status, result) => FinishMoves(db, target, lease, status, result, now, id);
      case CallPrune(days) => AfterReapMoves(db, Prune(db, days, now), now, id);
      case CallRead => ReapMoves(db, now, id);
      case CallClaim(_, _, _, _) => QueueCallMoves(db, call, now, id);
      case CallSubmit(_, _, _) => QueueCallMoves(db, call, now, id);
      case CallHeartbeat(target, lease) => HeartbeatMoves(db, target, lease, now, id);
      case CallCancel(target) => CancelMoves(db, target, now, id);
      case CallPublish(target, lease, file, sha) => PublishMoves(db, target, lease, file, sha, now, id);
    }
  }

  /** One transaction moves every row that survives it along its life cycle. */
  lemma PerformMoves(db: Db, call: Call, now: Time, id: JobId)
    requires Inv(db) && Allowed(db, call, now)
    requires id in db.jobs && id in Perform(db, call, now).jobs
    ensures RowMoves(db, Perform(db, call, now), id)
  {
    assert JobOk(db.jobs[id]);
    CallMoves(db, call, now, id);
  }

  lemma AppendLogKeepsKeys(db: Db, target: JobId, lease: string, seqno: nat, text: string, now: Time)
    ensures AppendLog(db, target, lease, seqno, text, now).After(db).jobs.Keys == db.jobs.Keys
  {
  }

  lemma FinishKeepsKeys(db: Db, target: JobId, lease: string, status: Status, result: string, now: Time)
    ensures Finish(db, target, lease, status, result, now).After(db).jobs.Keys == db.jobs.Keys
  {
  }

  lemma JobCallKeepsKeys(db: Db, call: Call, now: Time)
    requires call.CallHeartbeat? || call.CallCancel? || call.CallPublish?
    ensures Perform(db, call, now).jobs.Keys == db.jobs.Keys
  {
  }

  /** Only pruning deletes a row, and it deletes exactly the jobs that were finished before the cutoff. */
  lemma OnlyPruneDeletes(db: Db, call: Call, now: Time, id: JobId)
    requires Inv(db) && Allowed(db, call, now) && id in db.jobs
    ensures id !in Perform(db, call, now).jobs
            <==> call.CallPrune? && Reap(db, now).jobs[id].Terminal()
                 && FinishedBefore(Reap(db, now).jobs[id], now - call.days as Time * DAY)
  {
    match call {
      case CallPrune(days) =>
        ReapKeepsInv(db, now);
        assert JobOk(Reap(db, now).jobs[id]);
      case CallAppendLog(target, lease, seqno, text) => AppendLogKeepsKeys(db, target, lease, seqno, text, now);
      case CallFinish(target, lease, status, result) => FinishKeepsKeys(db, target, lease, status, result, now);
      case CallRead =>
      case CallClaim(_, _, _, _) =>
        assert JobOk(db.jobs[id]);
        QueueCallMoves(db, call, now, id);
      case CallSubmit(_, _, _) =>
        assert JobOk(db.jobs[id]);
        QueueCallMoves(db, call, now, id);
      case _ => JobCallKeepsKeys(db, call, now);
    }
  }

  lemma StepMoves(dbs: seq<Db>, calls: seq<Call>, times: seq<Time>, n: nat, id: JobId)
    requires IsRun(dbs, calls, times) && n + 1 < |dbs| && id in dbs[n].jobs && id in dbs[n + 1].jobs
    ensures RowMoves(dbs[n], dbs[n + 1], id)
  {
    RunKeepsInv(dbs, calls, times, n);
    PerformMoves(dbs[n], calls[n], times[n], id);
  }

  /**
   Over a whole run: between any two states in which a job's row is present throughout, its status only
   moves down the ranking, a finished row and its log never change, and its lease is issued once.
   */
  lemma {:induction false} LifeCycle(dbs: seq<Db>, calls: seq<Call>, times: seq<Time>, i: nat, k: nat, id: JobId)
    requires IsRun(dbs, calls, times) && i <= k < |dbs|
    requires forall n :: i <= n <= k ==> id in dbs[n].jobs
    ensures RowMoves(dbs[i], dbs[k], id)
    decreases k
  {
    if i < k {
      LifeCycle(dbs, calls, times, i, k - 1, id);
      StepMoves(dbs, calls, times, k - 1, id);
      LinkMoves(dbs[i], dbs[k - 1], dbs[k], id);
    }
  }

  lemma LinkMoves(a: Db, b: Db, c: Db, id: JobId)
    requires id in a.jobs && id in b.jobs && id in c.jobs && RowMoves(a, b, id) && RowMoves(b, c, id)
    ensures RowMoves(a, c, id)
  {
    MovesTransitive(a.jobs[id], Log(a, id), b.jobs[id], Log(b, id), c.jobs[id], Log(c, id));
  }

  /** A lease goes to one job only, and only while no other job holds the slot: jobs are never replayed. */
  lemma ClaimIssuesOnce(db: Db, worker: string, projects: seq<string>, lease: string, id: JobId, now: Time)
    requires Inv(db) && Allowed(db, CallClaim(worker, projects, lease, Some(id)), now)
    ensures db.jobs[id].lease == None && db.jobs[id].status == Queued
    ensures forall other :: other in db.jobs && db.jobs[other].Active() ==>
              db.jobs[other].leaseUntil.Some? && db.jobs[other].leaseUntil.value <= now
    ensures Claim(db, Some(id), worker, lease, now).jobs[id].lease == Some(lease)
  {
    var reaped := Reap(db, now);
    assert Eligible(reaped, projects, id);
    assert JobOk(db.jobs[id]);
    forall other | other in db.jobs && db.jobs[other].Active()
      ensures db.jobs[other].leaseUntil.Some? && db.jobs[other].leaseUntil.value <= now
    {
      assert JobOk(db.jobs[other]);
      assert !reaped.jobs[other].Active();
    }
  }

  lemma NothingOverdueByJob(db: Db, call: Call, now: Time, id: JobId)
    requires Allowed(db, call, now) && id in db.jobs && Perform(db, call, now) != db
    requires call.CallHeartbeat? || call.CallCancel? || call.CallPublish?
    ensures id in Perform(db, call, now).jobs && !Overdue(Perform(db, call, now).jobs[id], now)
  {
  }

  lemma NothingOverdueByFinish(db: Db, call: Call, now: Time, id: JobId)
    requires id in db.jobs && call.CallFinish? && Perform(db, call, now) != db
    ensures id in Perform(db, call, now).jobs && !Overdue(Perform(db, call, now).jobs[id], now)
  {
    FinishKeepsKeys(db, call.id, call.lease, call.status, call.result, now);
  }

  lemma NothingOverdueByQueue(db: Db, call: Call, now: Time, id: JobId)
    requires Allowed(db, call, now) && id in db.jobs && Perform(db, call, now) != db
    requires call.CallClaim? || call.CallSubmit?
    ensures id in Perform(db, call, now).jobs && !Overdue(Perform(db, call, now).jobs[id], now)
  {
  }

  lemma NothingOverdueByLog(db: Db, call: Call, now: Time, id: JobId)
    requires id in db.jobs && call.CallAppendLog? && Perform(db, call, now) != db
    ensures id in Perform(db, call, now).jobs && !Overdue(Perform(db, call, now).jobs[id], now)
  {
    AppendLogKeepsKeys(db, call.id, call.lease, call.seqno, call.text, now);
  }

  /** Whatever a transaction does, if it commits, no row that it found is overdue after it. */
  lemma NothingOverdue(db: Db, call: Call, now: Time, id: JobId)
    requires Allowed(db, call, now) && id in db.jobs && Perform(db, call, now) != db
    ensures id in Perform(db, call, now).jobs ==> !Overdue(Perform(db, call, now).jobs[id], now)
  {
    if call.CallPrune? || call.CallRead? {
    } else if call.CallClaim? || call.CallSubmit? {
      NothingOverdueByQueue(db, call, now, id);
    } else if call.CallAppendLog? {
      NothingOverdueByLog(db, call, now, id);
    } else if call.CallFinish? {
      NothingOverdueByFinish(db, call, now, id);
    } else {
      NothingOverdueByJob(db, call, now, id);
    }
  }

  lemma RepeatedFinish(db: Db, id: JobId, lease: string, status: Status, result: string, now: Time)
    requires status == Succeeded || status == Failed || status == Cancelled
    requires id in db.jobs && db.jobs[id].Terminal() && LeaseText(db.jobs[id]) == lease
    requires db.jobs[id].result == Some(result) && (db.jobs[id].status == status || db.jobs[id].status == Cancelled)
    ensures Finish(db, id, lease, status, result, now) == Commit(Reap(db, now), db.jobs[id])
    ensures Reap(db, now).jobs[id] == db.jobs[id]
  {
  }

  /** What a successful completion leaves behind: the recorded outcome, under this lease. */
  lemma FinishRecords(db: Db, id: JobId, lease: string, status: Status, result: string, now: Time)
    requires Finish(db, id, lease, status, result, now).Commit?
    ensures var first := Finish(db, id, lease, status, result, now);
            && id in first.db.jobs && first.db.jobs[id] == first.value
            && first.value.Terminal() && LeaseText(first.value) == lease
            && first.value.result == Some(result)
            && (first.value.status == status || first.value.status == Cancelled)
  {
  }

  /**
   A completion that was recorded in a run can be repeated at any later time, after any other transactions: as long
   as the row is there it gets the same answer, and the row does not change.
   */
  lemma FinishIsIdempotent(dbs: seq<Db>, calls: seq<Call>, times: seq<Time>, n: nat, m: nat, later: Time)
    requires IsRun(dbs, calls, times) && n < m < |dbs| && calls[n].CallFinish?
    requires Finish(dbs[n], calls[n].id, calls[n].lease, calls[n].status, calls[n].result, times[n]).Commit?
    requires forall k :: n < k <= m ==> calls[n].id in dbs[k].jobs
    ensures var call, id := calls[n], calls[n].id;
            var first := Finish(dbs[n], id, call.lease, call.status, call.result, times[n]).value;
            && dbs[m].jobs[id] == first
            && Finish(dbs[m], id, call.lease, call.status, call.result, later) == Commit(Reap(dbs[m], later), first)
            && Reap(dbs[m], later).jobs[id] == first
  {
    var call := calls[n];
    FinishRecords(dbs[n], call.id, call.lease, call.status, call.result, times[n]);
    assert dbs[n + 1] == Perform(dbs[n], call, times[n]);
    LifeCycle(dbs, calls, times, n + 1, m, call.id);
    RepeatedFinish(dbs[m], call.id, call.lease, call.status, call.result, later);
  }

  lemma SubmitAgain(db: Db, id: JobId, spec: Spec, key: string, newId: JobId, now: Time)
    requires Inv(db) && HasKey(db, id, key)
    ensures Submit(db, spec, key, newId, now)
            == if spec == db.jobs[id].spec then Commit(Reap(db, now), id) else Rollback(KeyReused)
  {
    ReapKeepsInv(db, now);
    var reaped := Reap(db, now);
    assert HasKey(reaped, id, key);
    assert forall other :: HasKey(reaped, other, key) ==> other == id;
  }

  lemma SubmitRecords(db: Db, spec: Spec, key: string, newId: JobId, now: Time)
    requires Submit(db, spec, key, newId, now).Commit?
    ensures var first := Submit(db, spec, key, newId, now);
            HasKey(first.db, first.value, key) && first.db.jobs[first.value].spec == spec
  {
  }

  /**
   A key that was used in a run can be used again at any later time, after any other transactions: as long as the row
   is there, the same job under it yields that row, and another job is refused. No row is added.
   */
  lemma SubmitIsIdempotent(dbs: seq<Db>, calls: seq<Call>, times: seq<Time>, n: nat, m: nat,
                           other: Spec, againId: JobId, later: Time)
    requires IsRun(dbs, calls, times) && n < m < |dbs| && calls[n].CallSubmit?
    requires Submit(dbs[n], calls[n].spec, calls[n].key, calls[n].newId, times[n]).Commit?
    requires var id := Submit(dbs[n], calls[n].spec, calls[n].key, calls[n].newId, times[n]).value;
             forall k :: n < k <= m ==> id in dbs[k].jobs
    ensures var id := Submit(dbs[n], calls[n].spec, calls[n].key, calls[n].newId, times[n]).value;
            Submit(dbs[m], other, calls[n].key, againId, later)
            == if other == calls[n].spec then Commit(Reap(dbs[m], later), id) else Rollback(KeyReused)
  {
    var call := calls[n];
    var id := Submit(dbs[n], call.spec, call.key, call.newId, times[n]).value;
    SubmitRecords(dbs[n], call.spec, call.key, call.newId, times[n]);
    assert dbs[n + 1] == Perform(dbs[n], call, times[n]);
    LifeCycle(dbs, calls, times, n + 1, m, id);
    RunKeepsInv(dbs, calls, times, m);
    SubmitAgain(dbs[m], id, other, call.key, againId, later);
  }
}
