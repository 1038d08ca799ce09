/** `macqueue/store.py`: the two tables, updated in place by transactions that are proved to do what
    `StoreSpec` says and to keep the store invariant. */
module Store {
  import opened Common
  import opened StoreSpec
  import StoreProps

  function Reply<T>(outcome: Outcome<T>): Result<T, Error> {
    match outcome
    case Commit(_, value) => Ok(value)
    case Rollback(error) => Err(error)
  }

  /** A package that a surviving provision or revoke job still names. */
  predicate Names(job: Job, sha: string) {
    exists i :: 0 <= i < |job.spec.steps| && job.spec.steps[i].op != OtherOperation && job.spec.steps[i].sha == sha
  }

  ghost predicate Referenced(jobs: map<JobId, Job>, sha: string) {
    exists id :: id in jobs && Names(jobs[id], sha)
  }

  /** The update of one queued row. */
  function Expire(job: Job, now: Time): Job {
    if job.status == Queued && job.expires <= now then job.(status := Expired, finished := Some(now)) else job
  }

  /** The update of one active row. */
  function EndLease(job: Job, now: Time): Job {
    if job.Active() && job.leaseUntil.Some? && job.leaseUntil.value <= now then
      job.(status := if job.status == CancelRequested then Cancelled else Lost,
           finished := Some(now), result := Some(LOST_RESULT))
    else job
  }

  lemma UpdatesReap(job: Job, now: Time)
    ensures EndLease(Expire(job, now), now) == ReapJob(job, now)
  {
  }

  class Store {
    var jobs: map<JobId, Job>
    var logs: map<JobId, LogRows>
    /** Published artifact files, and uploaded input packages with their modification times. */
    var artifacts: set<string>
    var inputs: map<string, Time>

    function Data(): Db
      reads this
    {
      Db(jobs, logs)
    }

    ghost predicate Valid()
      reads this
    {
      StoreProps.Inv(Data())
    }

    constructor ()
      ensures Valid() && Data() == EMPTY_DB && artifacts == {} && inputs == map[]
    {
      jobs, logs, artifacts, inputs := map[], map[], {}, map[];
      new;
      assert QueuedIds(EMPTY_DB) == {};
    }

    /** The two updates at the start of every transaction. Afterwards nothing is overdue; what was overdue has ended
        now and kept everything but its outcome; every other row is as it was. */
    method Reap(now: Time)
      modifies this`jobs
      ensures Data() == StoreSpec.Reap(old(Data()), now)
      ensures jobs.Keys == old(jobs).Keys
      ensures forall id {:trigger StoreProps.Ends(old(jobs)[id], jobs[id], now)} :: id in jobs ==>
                StoreProps.Ends(old(jobs)[id], jobs[id], now)
    {
      jobs := map id | id in jobs :: Expire(jobs[id], now);
      jobs := map id | id in jobs :: EndLease(jobs[id], now);
      forall id | id in jobs
        ensures jobs[id] == ReapJob(old(jobs)[id], now) && StoreProps.Ends(old(jobs)[id], jobs[id], now)
      {
        UpdatesReap(old(jobs)[id], now);
        StoreProps.ReapEnds(old(jobs)[id], now);
      }
      assert jobs == StoreSpec.Reap(old(Data()), now).jobs;
    }

    /** Undo everything since the start of the transaction. */
    method Undo(before: Db)
      modifies this`jobs, this`logs
      ensures Data() == before
    {
      jobs, logs := before.jobs, before.logs;
    }

    method CountQueued() returns (count: nat)
      ensures count == |QueuedIds(Data())|
    {
      var queued := set id | id in jobs && jobs[id].status == Queued;
      assert queued == QueuedIds(Data());
      count := |queued|;
    }

    /** The row with this idempotency key. */
    method FindKey(key: string) returns (found: Option<JobId>)
      ensures found.Some? ==> HasKey(Data(), found.value, key)
      ensures found.None? ==> !exists id :: HasKey(Data(), id, key)
    {
      if id :| id in jobs && jobs[id].key == key {
        return Some(id);
      }
      return None;
    }

    method Submit(spec: Spec, key: string, newId: JobId, now: Time) returns (r: Result<JobId, Error>)
      requires Valid() && newId !in jobs
      modifies this`jobs, this`logs
      ensures Valid()
      ensures var outcome := StoreSpec.Submit(old(Data()), spec, key, newId, now);
              Data() == outcome.After(old(Data())) && r == Reply(outcome)
    {
      var before := Data();
      StoreProps.SubmitKeepsInv(before, spec, key, newId, now);
      StoreProps.ReapKeepsInv(before, now);
      Reap(now);
      var found := FindKey(key);
      if found.Some? {
        assert forall other :: HasKey(Data(), other, key) ==> other == found.value;
        if jobs[found.value].spec != spec {
          Undo(before);
          return Err(KeyReused);
        }
        return Ok(found.value);
      }
      var count := CountQueued();
      if count >= QUEUE_LIMIT {
        Undo(before);
        return Err(QueueFull);
      }
      jobs := jobs[newId := NewJob(spec, key, now)];
      return Ok(newId);
    }

    /** The next row in the order of the `created` column. */
    method Oldest(ids: set<JobId>) returns (oldest: JobId)
      requires ids != {} && ids <= jobs.Keys
      ensures oldest in ids && forall id :: id in ids ==> jobs[oldest].created <= jobs[id].created
    {
      oldest :| oldest in ids;
      var rest := ids - {oldest};
      while rest != {}
        invariant rest <= ids && oldest in ids
        invariant forall id :: id in ids - rest ==> jobs[oldest].created <= jobs[id].created
        decreases rest
      {
        var id :| id in rest;
        if jobs[id].created < jobs[oldest].created {
          oldest := id;
        }
        rest := rest - {id};
      }
    }

    /** The row to lease: rows are visited from the oldest until one is for these projects. */
    method SelectRow(projects: seq<string>) returns (pick: Option<JobId>)
      ensures ClaimChoice(Data(), projects, pick)
    {
      if id :| id in jobs && jobs[id].Active() {
        return None;
      }
      assert !SomeActive(Data());
      var waiting := set id | id in jobs && jobs[id].status == Queued;
      while waiting != {}
        invariant forall id :: id in waiting ==> id in jobs && jobs[id].status == Queued
        invariant forall id :: Eligible(Data(), projects, id) ==> id in waiting
        decreases waiting
      {
        var id := Oldest(waiting);
        if jobs[id].spec.project in projects {
          return Some(id);
        }
        waiting := waiting - {id};
      }
      return None;
    }

    method Claim(worker: string, projects: seq<string>, lease: string, now: Time) returns (pick: Option<JobId>)
      requires Valid() && lease != "" && forall id :: id in jobs ==> jobs[id].lease != Some(lease)
      modifies this`jobs, this`logs
      ensures Valid()
      ensures ClaimChoice(StoreSpec.Reap(old(Data()), now), projects, pick)
      ensures pick.Some? ==> pick.value in old(jobs)
      ensures Data() == StoreSpec.Claim(old(Data()), pick, worker, lease, now)
    {
      ghost var start := Data();
      Reap(now);
      pick := SelectRow(projects);
      StoreProps.ClaimKeepsInv(start, worker, projects, lease, pick, now);
      if pick.Some? {
        jobs := jobs[pick.value := Leased(jobs[pick.value], worker, lease, now)];
      }
    }

    method Heartbeat(id: JobId, lease: string, now: Time) returns (r: Result<bool, Error>)
      requires Valid()
      modifies this`jobs, this`logs
      ensures Valid()
      ensures var outcome := StoreSpec.Heartbeat(old(Data()), id, lease, now);
              Data() == outcome.After(old(Data())) && r == Reply(outcome)
    {
      StoreProps.HeartbeatKeepsInv(Data(), id, lease, now);
      var before := Data();
      Reap(now);
      var owned := Owned(Data(), id, lease);
      if owned.Err? {
        Undo(before);
        return Err(owned.error);
      }
      jobs := jobs[id := jobs[id].(leaseUntil := Some(now + LEASE_SECONDS))];
      return Ok(owned.value.status == CancelRequested);
    }

    method Cancel(id: JobId, now: Time) returns (r: Result<Job, Error>)
      requires Valid()
      modifies this`jobs, this`logs
      ensures Valid()
      ensures var outcome := StoreSpec.Cancel(old(Data()), id, now);
              Data() == outcome.After(old(Data())) && r == Reply(outcome)
    {
      StoreProps.CancelKeepsInv(Data(), id, now);
      var before := Data();
      Reap(now);
      if id !in jobs {
        Undo(before);
        return Err(NotFound);
      }
      if jobs[id].status == Queued {
        jobs := jobs[id := jobs[id].(status := Cancelled, finished := Some(now))];
      } else if jobs[id].status == Running {
        jobs := jobs[id := jobs[id].(status := CancelRequested)];
      } else {
        assert jobs == jobs[id := jobs[id]];
      }
      return Ok(jobs[id]);
    }

    method AppendLog(id: JobId, lease: string, seqno: nat, text: string, now: Time) returns (r: Result<(), Error>)
      requires Valid()
      modifies this`jobs, this`logs
      ensures Valid()
      ensures var outcome := StoreSpec.AppendLog(old(Data()), id, lease, seqno, text, now);
              Data() == outcome.After(old(Data())) && r == Reply(outcome)
    {
      StoreProps.AppendLogKeepsInv(Data(), id, lease, seqno, text, now);
      var before := Data();
      Reap(now);
      var owned := Owned(Data(), id, lease);
      if owned.Err? {
        Undo(before);
        return Err(owned.error);
      }
      var rows := Log(Data(), id);
      if seqno in rows {
        if rows[seqno] != text {
          Undo(before);
          return Err(SequenceCollision);
        }
        return Ok(());
      }
      var count := Utf8(text);
      if owned.value.logBytes + count > LOG_LIMIT {
        Undo(before);
        return Err(LogLimit);
      }
      InsertLog(id, seqno, text, count);
      return Ok(());
    }

    method InsertLog(id: JobId, seqno: nat, text: string, count: nat)
      requires id in jobs && count == Utf8(text)
      modifies this`jobs, this`logs
      ensures Data() == AddLogRow(old(Data()), id, seqno, text)
    {
      logs := logs[id := Log(Data(), id)[seqno := text]];
      jobs := jobs[id := jobs[id].(logBytes := jobs[id].logBytes + count)];
    }

    /** The rows after a cursor, smallest sequence numbers first, at most a page of them. */
    method Logs(id: JobId, after: int, now: Time) returns (r: Result<seq<LogRow>, Error>)
      requires Valid()
      modifies this`jobs, this`logs
      ensures Valid()
      ensures r.Err? <==> id !in old(jobs)
      ensures r.Err? ==> Data() == old(Data())
      ensures r.Ok? ==> Data() == StoreSpec.Reap(old(Data()), now) && IsPage(Log(old(Data()), id), after, r.value)
    {
      StoreProps.ReapKeepsInv(Data(), now);
      var before := Data();
      Reap(now);
      if id !in jobs {
        Undo(before);
        return Err(NotFound);
      }
      var page := SelectPage(Log(Data(), id), after);
      return Ok(page);
    }

    static method Least(keys: set<nat>) returns (least: nat)
      requires keys != {}
      ensures least in keys && forall k :: k in keys ==> least <= k
    {
      least :| least in keys;
      var rest := keys - {least};
      while rest != {}
        invariant rest <= keys && least in keys
        invariant forall k :: k in keys && k !in rest ==> least <= k
        decreases rest
      {
        var k :| k in rest;
        if k < least {
          least := k;
        }
        rest := rest - {k};
      }
    }

    static method SelectPage(rows: LogRows, after: int) returns (page: seq<LogRow>)
      ensures IsPage(rows, after, page)
    {
      page := [];
      var rest := set k | k in rows && k > after;
      while rest != {} && |page| < PAGE_LIMIT
        invariant |page| <= PAGE_LIMIT
        invariant forall k :: k in rest ==> k in rows && k > after
        invariant forall i :: 0 <= i < |page| ==>
                    page[i].seqno in rows && rows[page[i].seqno] == page[i].text && page[i].seqno > after
        invariant forall i, k :: 0 <= i < |page| && k in rest ==> page[i].seqno < k
        invariant forall i, j :: 0 <= i < j < |page| ==> page[i].seqno < page[j].seqno
        invariant forall k :: k in rows && k > after ==> k in rest || exists i :: 0 <= i < |page| && page[i].seqno == k
        decreases rest
      {
        var k := Least(rest);
        ghost var previous := page;
        page := page + [LogRow(k, rows[k])];
        assert page[|previous|].seqno == k;
        assert forall i :: 0 <= i < |previous| ==> page[i] == previous[i];
        rest := rest - {k};
      }
    }

    method PublishArtifact(id: JobId, lease: string, file: string, sha: Hash, now: Time) returns (r: Result<(), Error>)
      requires Valid()
      modifies this`jobs, this`logs, this`artifacts
      ensures Valid()
      ensures var outcome := StoreSpec.PublishArtifact(old(Data()), id, lease, file, sha, now);
              Data() == outcome.After(old(Data())) && r == Reply(outcome)
      ensures artifacts == if r.Ok? then old(artifacts) + {file} else old(artifacts)
    {
      var before := Data();
      Reap(now);
      var owned := Owned(Data(), id, lease);
      if owned.Err? {
        Undo(before);
        return Err(owned.error);
      }
      artifacts := artifacts + {file};
      jobs := jobs[id := jobs[id].(artifact := Some(file), artifactSha := Some(sha))];
      r := Ok(());
      StoreProps.PublishKeepsInv(before, id, lease, file, sha, now);
    }

    method Finish(id: JobId, lease: string, status: Status, result: string, now: Time) returns (r: Result<Job, Error>)
      requires Valid()
      modifies this`jobs, this`logs
      ensures Valid()
      ensures var outcome := StoreSpec.Finish(old(Data()), id, lease, status, result, now);
              Data() == outcome.After(old(Data())) && r == Reply(outcome)
    {
      StoreProps.FinishKeepsInv(Data(), id, lease, status, result, now);
      if status != Succeeded && status != Failed && status != Cancelled {
        return Err(InvalidStatus);
      }
      var before := Data();
      Reap(now);
      if id in jobs && jobs[id].Terminal() && LeaseText(jobs[id]) == lease {
        if jobs[id].result != Some(result) || (jobs[id].status != status && jobs[id].status != Cancelled) {
          Undo(before);
          return Err(CompletionConflict);
        }
        return Ok(jobs[id]);
      }
      var owned := Owned(Data(), id, lease);
      if owned.Err? {
        Undo(before);
        return Err(owned.error);
      }
      var final := status;
      if owned.value.status == CancelRequested {
        final := Cancelled;
      }
      if final == Succeeded && owned.value.artifact.None? {
        Undo(before);
        return Err(ArtifactRequired);
      }
      jobs := jobs[id := jobs[id].(status := final, result := Some(result), finished := Some(now))];
      return Ok(jobs[id]);
    }

    /** Delete one job: its artifact file, its row and, by cascade, its log rows. */
    method DeleteJob(id: JobId)
      requires id in jobs
      modifies this`jobs, this`logs, this`artifacts
      ensures jobs == old(jobs) - {id} && logs == old(logs) - {id}
      ensures artifacts == old(artifacts) - ArtifactsOf(old(jobs), {id})
    {
      if jobs[id].artifact.Some? {
        artifacts := artifacts - {jobs[id].artifact.value};
      }
      jobs, logs := jobs - {id}, logs - {id};
    }

    static ghost function ArtifactsOf(table: map<JobId, Job>, ids: set<JobId>): set<string> {
      set id | id in ids && id in table && table[id].artifact.Some? :: table[id].artifact.value
    }

    method DeleteJobs(ids: set<JobId>)
      requires ids <= jobs.Keys
      modifies this`jobs, this`logs, this`artifacts
      ensures jobs == old(jobs) - ids && logs == old(logs) - ids
      ensures artifacts == old(artifacts) - ArtifactsOf(old(jobs), ids)
    {
      var rest := ids;
      while rest != {}
        invariant rest <= ids && rest <= jobs.Keys
        invariant jobs == old(jobs) - (ids - rest) && logs == old(logs) - (ids - rest)
        invariant artifacts == old(artifacts) - ArtifactsOf(old(jobs), ids - rest)
        decreases rest
      {
        var id :| id in rest;
        ghost var done := ids - rest;
        DeleteJob(id);
        rest := rest - {id};
        assert ids - rest == done + {id};
      }
    }

    /** Delete the old packages no surviving provision or revoke job names; keep all the others. */
    method DeleteInputs(cutoff: Time)
      modifies this`inputs
      ensures forall sha :: sha in inputs
                <==> sha in old(inputs) && (Referenced(jobs, sha) || old(inputs)[sha] >= cutoff)
      ensures forall sha :: sha in inputs ==> inputs[sha] == old(inputs)[sha]
    {
      var rest := inputs.Keys;
      while rest != {}
        invariant rest <= inputs.Keys <= old(inputs).Keys
        invariant forall sha :: sha in inputs ==> inputs[sha] == old(inputs)[sha]
        invariant forall sha :: sha in old(inputs) ==>
                    (sha in inputs <==> sha in rest || Referenced(jobs, sha) || old(inputs)[sha] >= cutoff)
        decreases rest
      {
        var sha :| sha in rest;
        var named := exists id | id in jobs :: Names(jobs[id], sha);
        assert named <==> Referenced(jobs, sha);
        if !named && inputs[sha] < cutoff {
          inputs := inputs - {sha};
        }
        rest := rest - {sha};
      }
    }

    /** The finished rows that are old enough to go. */
    method OldRows(cutoff: Time) returns (ids: set<JobId>)
      ensures ids == set id | id in jobs && FinishedBefore(jobs[id], cutoff)
    {
      ids := set id | id in jobs && FinishedBefore(jobs[id], cutoff);
    }

    method PruneRows(days: int, now: Time) returns (ids: set<JobId>)
      requires Valid()
      modifies this`jobs, this`logs, this`artifacts
      ensures Valid() && Data() == StoreSpec.Prune(old(Data()), days, now)
      ensures ids == old(jobs).Keys - jobs.Keys
      ensures artifacts == old(artifacts) - ArtifactsOf(old(jobs), ids)
    {
      ghost var start := Data();
      Reap(now);
      ghost var reaped := Data();
      ids := OldRows(now - days as Time * DAY);
      DeleteJobs(ids);
      PruneEffect(start, reaped, ids, days, now);
      ReapKeepsArtifacts(start, ids, now);
      StoreProps.PruneKeepsInv(start, days, now);
    }

    method Prune(days: int, now: Time) returns (count: nat)
      requires Valid()
      modifies this
      ensures Valid()
      ensures Data() == StoreSpec.Prune(old(Data()), days, now)
      ensures count == |old(jobs).Keys - jobs.Keys|
      ensures artifacts == old(artifacts) - ArtifactsOf(old(jobs), old(jobs).Keys - jobs.Keys)
      ensures forall sha :: sha in inputs
                <==> sha in old(inputs) && (Referenced(jobs, sha) || old(inputs)[sha] >= now - days as Time * 86400.0)
      ensures forall sha :: sha in inputs ==> inputs[sha] == old(inputs)[sha]
    {
      var ids := PruneRows(days, now);
      DeleteInputs(now - days as Time * DAY);
      count := |ids|;
    }

    /** The packages that pruning keeps: those of the provision and revoke steps of the jobs that are left. */
    static lemma ReferencedBy(table: map<JobId, Job>, sha: string)
      ensures Referenced(table, sha) <==>
              (exists id, step {:trigger step in table[id].spec.steps} ::
                 id in table && step in table[id].spec.steps && step.sha == sha
                 && (step.op == Provision || step.op == RevokeSource))
    {
      if id, step :| id in table && step in table[id].spec.steps && step.sha == sha
                     && (step.op == Provision || step.op == RevokeSource) {
        assert Names(table[id], sha);
      }
    }

    static lemma PruneEffect(start: Db, reaped: Db, ids: set<JobId>, days: int, now: Time)
      requires reaped == StoreSpec.Reap(start, now) && start.logs.Keys <= start.jobs.Keys
      requires ids == set id | id in reaped.jobs && FinishedBefore(reaped.jobs[id], now - days as Time * DAY)
      ensures Db(reaped.jobs - ids, reaped.logs - ids) == StoreSpec.Prune(start, days, now)
      ensures ids == start.jobs.Keys - (reaped.jobs - ids).Keys
    {
      assert reaped.logs == start.logs && reaped.jobs.Keys == start.jobs.Keys;
      var spec := StoreSpec.Prune(start, days, now);
      assert reaped.jobs - ids == spec.jobs;
      assert reaped.logs - ids == spec.logs;
    }

    static lemma ReapKeepsArtifacts(start: Db, ids: set<JobId>, now: Time)
      ensures ArtifactsOf(StoreSpec.Reap(start, now).jobs, ids) == ArtifactsOf(start.jobs, ids)
    {
      var reaped := StoreSpec.Reap(start, now).jobs;
      forall file ensures file in ArtifactsOf(reaped, ids) <==> file in ArtifactsOf(start.jobs, ids) {
        if file in ArtifactsOf(start.jobs, ids) {
          var id :| id in ids && id in start.jobs && start.jobs[id].artifact == Some(file);
          assert reaped[id].artifact == Some(file);
        }
      }
    }
  }
}
