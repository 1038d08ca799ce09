/** What a caller of the store can rely on: for every transaction its errors and its effect on every row, in terms of the
    rows before it. A row is held by a lease that is its own, on an active job, and not over. */
module StoreLaws {
  import opened Common
  import opened StoreSpec
  import opened StoreProps

  predicate Holds(db: Db, id: JobId, lease: string, now: Time) {
    && id in db.jobs && db.jobs[id].lease == Some(lease)
    && (db.jobs[id].status == Running || db.jobs[id].status == CancelRequested)
    && !Overdue(db.jobs[id], now)
  }

  /** A queued job that has not expired. */
  predicate Waits(job: Job, now: Time) {
    job.status == Queued && now < job.expires
  }

  predicate Works(job: Job, now: Time) {
    (job.status == Running || job.status == CancelRequested) && !Overdue(job, now)
  }

  /** Overdue rows have ended; every other row is as it was, and so are the logs. */
  ghost predicate OnlyEnds(before: Db, after: Db, now: Time) {
    && after.jobs.Keys == before.jobs.Keys && after.logs == before.logs
    && forall id {:trigger before.jobs[id]} {:trigger after.jobs[id]} :: id in before.jobs ==>
         Ends(before.jobs[id], after.jobs[id], now)
  }

  /** The same, except that the row at `id` is `job`. */
  ghost predicate Sets(before: Db, after: Db, id: JobId, job: Job, now: Time) {
    && after.jobs.Keys == before.jobs.Keys + {id} && after.jobs[id] == job
    && forall other {:trigger before.jobs[other]} {:trigger after.jobs[other]} :: other in before.jobs && other != id ==>
         Ends(before.jobs[other], after.jobs[other], now)
  }

  lemma ReapLaw(db: Db, now: Time)
    ensures OnlyEnds(db, Reap(db, now), now)
  {
    forall id | id in db.jobs ensures Ends(db.jobs[id], Reap(db, now).jobs[id], now) {
      ReapEnds(db.jobs[id], now);
    }
  }

  lemma ReapOf(db: Db, id: JobId, now: Time)
    requires id in db.jobs
    ensures Ends(db.jobs[id], Reap(db, now).jobs[id], now) && Reap(db, now).jobs[id].lease == db.jobs[id].lease
    ensures Reap(db, now).jobs[id].Active() <==> Works(db.jobs[id], now)
    ensures Reap(db, now).jobs[id].status == Queued <==> Waits(db.jobs[id], now)
  {
    ReapEnds(db.jobs[id], now);
  }

  lemma SetLaw(db: Db, id: JobId, job: Job, now: Time)
    ensures Sets(db, SetJob(Reap(db, now), id, job), id, job, now)
    ensures SetJob(Reap(db, now), id, job).logs == db.logs
  {
    ReapLaw(db, now);
  }

  /** Who holds the lease, and which error everybody else gets. */
  lemma OwnedLaw(db: Db, id: JobId, lease: string, now: Time)
    ensures var r := Owned(Reap(db, now), id, lease);
            && (r.Ok? <==> Holds(db, id, lease, now))
            && (r.Ok? ==> r.value == db.jobs[id])
            && (r == Err(NotFound) <==> id !in db.jobs)
            && (r == Err(WrongLease) <==> id in db.jobs && db.jobs[id].lease != Some(lease))
            && (r.Err? ==> r.error == NotFound || r.error == WrongLease || r.error == LeaseInactive)
  {
    if id in db.jobs {
      ReapOf(db, id, now);
    }
  }

  /** Only the holder renews: for 60 s from now. It learns of a requested cancel. */
  lemma HeartbeatLaw(db: Db, id: JobId, lease: string, now: Time)
    ensures var o := Heartbeat(db, id, lease, now);
            && (o.Commit? <==> Holds(db, id, lease, now))
            && (o == Rollback(NotFound) <==> id !in db.jobs)
            && (o == Rollback(WrongLease) <==> id in db.jobs && db.jobs[id].lease != Some(lease))
            && (o.Rollback? ==> o.error == NotFound || o.error == WrongLease || o.error == LeaseInactive)
            && (o.Commit? ==>
                  && (o.value <==> db.jobs[id].status == CancelRequested)
                  && Sets(db, o.db, id, db.jobs[id].(leaseUntil := Some(now + 60.0)), now) && o.db.logs == db.logs)
  {
    OwnedLaw(db, id, lease, now);
    if Holds(db, id, lease, now) {
      SetLaw(db, id, db.jobs[id].(leaseUntil := Some(now + 60.0)), now);
    }
  }

  lemma PublishLaw(db: Db, id: JobId, lease: string, file: string, sha: Hash, now: Time)
    ensures var o := PublishArtifact(db, id, lease, file, sha, now);
            && (o.Commit? <==> Holds(db, id, lease, now))
            && (o == Rollback(NotFound) <==> id !in db.jobs)
            && (o == Rollback(WrongLease) <==> id in db.jobs && db.jobs[id].lease != Some(lease))
            && (o.Rollback? ==> o.error == NotFound || o.error == WrongLease || o.error == LeaseInactive)
            && (o.Commit? ==>
                  Sets(db, o.db, id, db.jobs[id].(artifact := Some(file), artifactSha := Some(sha)), now)
                  && o.db.logs == db.logs)
  {
    OwnedLaw(db, id, lease, now);
    if Holds(db, id, lease, now) {
      SetLaw(db, id, db.jobs[id].(artifact := Some(file), artifactSha := Some(sha)), now);
    }
  }

  /** A waiting job is cancelled now, a working one asked to stop; any other keeps its outcome. */
  lemma CancelLaw(db: Db, id: JobId, now: Time)
    ensures var o := Cancel(db, id, now);
            && (o.Commit? <==> id in db.jobs) && (o.Rollback? ==> o.error == NotFound)
            && (o.Commit? ==>
                  && Sets(db, o.db, id, o.value, now) && o.db.logs == db.logs
                  && (Waits(db.jobs[id], now) ==>
                        o.value == db.jobs[id].(status := Cancelled, finished := Some(now)))
                  && (Works(db.jobs[id], now) ==> o.value == db.jobs[id].(status := CancelRequested))
                  && (!Waits(db.jobs[id], now) && !Works(db.jobs[id], now) ==> Ends(db.jobs[id], o.value, now)))
  {
    if id in db.jobs {
      ReapOf(db, id, now);
      SetLaw(db, id, CancelJob(Reap(db, now).jobs[id], now), now);
    }
  }

  /** A chunk is stored once under its number, as long as the log stays within 16 MiB; the same text again changes
      nothing, another text is refused. */
  lemma AppendLogLaw(db: Db, id: JobId, lease: string, seqno: nat, text: string, now: Time)
    ensures var o := AppendLog(db, id, lease, seqno, text, now);
            var rows := if id in db.logs then db.logs[id] else map[];
            if !Holds(db, id, lease, now) then
              && o.Rollback?
              && (o.error == NotFound <==> id !in db.jobs)
              && (o.error == WrongLease <==> id in db.jobs && db.jobs[id].lease != Some(lease))
              && (o.error == NotFound || o.error == WrongLease || o.error == LeaseInactive)
            else if seqno in rows then
              if rows[seqno] == text then o.Commit? && OnlyEnds(db, o.db, now) else o == Rollback(SequenceCollision)
            else if db.jobs[id].logBytes + Utf8(text) > 16777216 then o == Rollback(LogLimit)
            else
              && o.Commit?
              && Sets(db, o.db, id, db.jobs[id].(logBytes := db.jobs[id].logBytes + Utf8(text)), now)
              && o.db.logs == db.logs[id := rows[seqno := text]]
  {
    OwnedLaw(db, id, lease, now);
    if Holds(db, id, lease, now) {
      ReapLaw(db, now);
    }
  }

  /** The holder's completion: it is recorded as reported, unless a cancel was requested; a success needs an artifact. */
  lemma HeldFinishLaw(db: Db, id: JobId, lease: string, status: Status, result: string, now: Time)
    requires Holds(db, id, lease, now) && (status == Succeeded || status == Failed || status == Cancelled)
    ensures var o := Finish(db, id, lease, status, result, now);
            if db.jobs[id].status == Running && status == Succeeded && db.jobs[id].artifact.None? then
              o == Rollback(ArtifactRequired)
            else
              && o.Commit? && o.db.logs == db.logs
              && o.value == db.jobs[id].(status := if db.jobs[id].status == Running then status else Cancelled,
                                         result := Some(result), finished := Some(now))
              && Sets(db, o.db, id, o.value, now)
  {
    OwnedLaw(db, id, lease, now);
    ReapOf(db, id, now);
    SetLaw(db, id, db.jobs[id].(status := if db.jobs[id].status == Running then status else Cancelled,
                                result := Some(result), finished := Some(now)), now);
  }

  /** A completion of a job that has ended: the recorded row for the lease it had, if the outcome agrees. */
  lemma EndedFinishLaw(db: Db, id: JobId, lease: string, status: Status, result: string, now: Time)
    requires !Holds(db, id, lease, now) && (status == Succeeded || status == Failed || status == Cancelled)
    ensures var o := Finish(db, id, lease, status, result, now);
            if id !in db.jobs then o == Rollback(NotFound)
            else
              var row := Reap(db, now).jobs[id];
              && Ends(db.jobs[id], row, now)
              && if row.Terminal() && (if row.lease.Some? then row.lease.value else "") == lease then
                   if row.result == Some(result) && (row.status == status || row.status == Cancelled) then
                     o.Commit? && o.value == row && OnlyEnds(db, o.db, now)
                   else o == Rollback(CompletionConflict)
                 else o == Rollback(if db.jobs[id].lease != Some(lease) then WrongLease else LeaseInactive)
  {
    OwnedLaw(db, id, lease, now);
    ReapLaw(db, now);
  }

  lemma FinishStatusLaw(db: Db, id: JobId, lease: string, status: Status, result: string, now: Time)
    ensures Finish(db, id, lease, status, result, now) == Rollback(InvalidStatus) <==>
              status != Succeeded && status != Failed && status != Cancelled
  {
  }

  /** The outcome of a completion that was accepted in a run, seen from any later state in which the row is there. */
  lemma OutcomeLasts(dbs: seq<Db>, calls: seq<Call>, times: seq<Time>, n: nat, m: nat)
    requires IsRun(dbs, calls, times) && n < m < |dbs| && calls[n].CallFinish?
    requires Holds(dbs[n], calls[n].id, calls[n].lease, times[n])
    requires Finish(dbs[n], calls[n].id, calls[n].lease, calls[n].status, calls[n].result, times[n]).Commit?
    requires forall k :: n < k <= m ==> calls[n].id in dbs[k].jobs
    ensures var row, call := dbs[m].jobs[calls[n].id], calls[n];
            && row.status == (if dbs[n].jobs[call.id].status == Running then call.status else Cancelled)
            && row.result == Some(call.result) && row.finished == Some(times[n])
  {
    var call := calls[n];
    FinishStatusLaw(dbs[n], call.id, call.lease, call.status, call.result, times[n]);
    HeldFinishLaw(dbs[n], call.id, call.lease, call.status, call.result, times[n]);
    FinishIsIdempotent(dbs, calls, times, n, m, times[n]);
  }

  /** A key that was used returns its job, and is refused for any other. */
  lemma SubmitAgainLaw(db: Db, spec: Spec, key: string, newId: JobId, now: Time, id: JobId)
    requires Inv(db) && id in db.jobs && db.jobs[id].key == key
    ensures var o := Submit(db, spec, key, newId, now);
            if db.jobs[id].spec == spec then o.Commit? && o.value == id && OnlyEnds(db, o.db, now)
            else o == Rollback(KeyReused)
  {
    ReapLaw(db, now);
    var reaped := Reap(db, now);
    assert HasKey(reaped, id, key) && reaped.jobs[id].spec == db.jobs[id].spec;
    ReapKeepsInv(db, now);
    assert forall other :: HasKey(reaped, other, key) ==> other == id;
  }

  lemma WaitingAfterReap(db: Db, now: Time)
    ensures QueuedIds(Reap(db, now)) == set id | id in db.jobs && Waits(db.jobs[id], now)
  {
    forall id | id in db.jobs ensures Reap(db, now).jobs[id].status == Queued <==> Waits(db.jobs[id], now) {
      ReapOf(db, id, now);
    }
  }

  /** A new key gets a new row that waits, unless 1000 wait already. */
  lemma SubmitLaw(db: Db, spec: Spec, key: string, newId: JobId, now: Time)
    requires newId !in db.jobs && forall id :: id in db.jobs ==> db.jobs[id].key != key
    ensures var o := Submit(db, spec, key, newId, now);
            if |set id | id in db.jobs && Waits(db.jobs[id], now)| >= 1000 then o == Rollback(QueueFull)
            else
              && o.Commit? && o.value == newId && o.db.logs == db.logs
              && newId in o.db.jobs && Sets(db, o.db, newId, o.db.jobs[newId], now)
              && var row := o.db.jobs[newId];
                 && row.spec == spec && row.key == key && row.status == Queued && row.created == now
                 && row.expires == now + (if spec.expiresIn.Some? then spec.expiresIn.value else 86400.0)
                 && row.started == row.finished == row.leaseUntil == None && row.worker == row.lease == row.result == None
                 && row.artifact == None && row.artifactSha == None && row.logBytes == 0
  {
    WaitingAfterReap(db, now);
    assert forall id :: !HasKey(Reap(db, now), id, key);
    SetLaw(db, newId, NewJob(spec, key, now), now);
  }

  /** A worker gets the oldest waiting job of its projects, for 60 s, and none while another job works. */
  lemma ClaimLaw(db: Db, projects: seq<string>, pick: Option<JobId>, worker: string, lease: string, now: Time)
    requires ClaimChoice(Reap(db, now), projects, pick)
    ensures var after := Claim(db, pick, worker, lease, now);
            match pick
            case None =>
              && OnlyEnds(db, after, now)
              && ((exists id :: id in db.jobs && Works(db.jobs[id], now))
                  || forall id :: id in db.jobs && Waits(db.jobs[id], now) ==> db.jobs[id].spec.project !in projects)
            case Some(id) =>
              && (forall other :: other in db.jobs ==> !Works(db.jobs[other], now))
              && id in db.jobs && Waits(db.jobs[id], now) && db.jobs[id].spec.project in projects
              && (forall other :: other in db.jobs && Waits(db.jobs[other], now)
                                  && db.jobs[other].spec.project in projects ==>
                                    db.jobs[id].created <= db.jobs[other].created)
              && Sets(db, after, id, db.jobs[id].(status := Running, worker := Some(worker), lease := Some(lease),
                                                  leaseUntil := Some(now + 60.0), started := Some(now)), now)
              && after.logs == db.logs
  {
    ReapLaw(db, now);
    forall id | id in db.jobs
      ensures Reap(db, now).jobs[id].Active() <==> Works(db.jobs[id], now)
      ensures Reap(db, now).jobs[id].status == Queued <==> Waits(db.jobs[id], now)
    {
      ReapOf(db, id, now);
    }
    assert forall id :: Eligible(Reap(db, now), projects, id) <==>
                        id in db.jobs && Waits(db.jobs[id], now) && db.jobs[id].spec.project in projects;
    if pick.Some? {
      SetLaw(db, pick.value, Leased(Reap(db, now).jobs[pick.value], worker, lease, now), now);
    }
  }

  /** Pruning deletes exactly the rows that ended before the cutoff, with their logs. */
  lemma PruneLaw(db: Db, days: int, now: Time)
    ensures var after, cutoff := Prune(db, days, now), now - days as real * 86400.0;
            && (forall id :: id in after.jobs ==> id in db.jobs && Ends(db.jobs[id], after.jobs[id], now))
            && (forall id :: id in db.jobs ==>
                  var finished := if Overdue(db.jobs[id], now) then Some(now) else db.jobs[id].finished;
                  id in after.jobs <==> !(finished.Some? && finished.value < cutoff))
            && (forall id :: id in after.logs <==> id in db.logs && id in after.jobs)
            && (forall id :: id in after.logs ==> after.logs[id] == db.logs[id])
  {
    ReapLaw(db, now);
  }
}
