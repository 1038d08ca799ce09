/** What one transaction means for the holder of a lease, whatever the transaction is. */
module ProtocolDb {
  import opened Common
  import opened StoreSpec
  import opened StoreProps

  /** The job is active under this lease: its holder owns the execution slot. */
  ghost predicate Live(db: Db, job: JobId, token: string) {
    job in db.jobs && db.jobs[job].Active() && db.jobs[job].lease == Some(token)
  }

  ghost predicate LiveUntil(db: Db, job: JobId, token: string, deadline: Time) {
    Live(db, job, token) && db.jobs[job].leaseUntil.Some? && db.jobs[job].leaseUntil.value >= deadline
  }

  /** How a row may change for the holder of `token` in one transaction at `now`. */
  ghost predicate Keeps(before: Job, after: Job, token: string, now: Time, finishing: bool) {
    before.lease == Some(token) ==>
      && after.lease == Some(token)
      && (after.Active() ==> before.Active())
      && (after.Active() ==> after.leaseUntil == before.leaseUntil || after.leaseUntil == Some(now + LEASE_SECONDS))
      && (before.Active() && !after.Active() ==>
            finishing || (before.leaseUntil.Some? && before.leaseUntil.value <= now))
  }

  lemma ReapKeeps(job: Job, token: string, now: Time)
    requires JobOk(job)
    ensures Keeps(job, ReapJob(job, now), token, now, false)
  {
  }

  lemma KeepsTransitive(a: Job, b: Job, c: Job, token: string, now: Time, finishing: bool)
    requires b.lease == a.lease
    requires Keeps(a, b, token, now, false) && (b.Active() ==> b.leaseUntil == a.leaseUntil)
    requires Keeps(b, c, token, now, finishing)
    ensures Keeps(a, c, token, now, finishing)
  {
  }

  /** After the reaping, a transaction touches the row of one job, or adds one, or deletes finished ones. */
  lemma UpdateTouchKeeps(db: Db, call: Call, now: Time, id: JobId, token: string)
    requires Allowed(db, call, now) && id in db.jobs
    requires call.CallHeartbeat? || call.CallCancel? || call.CallPublish?
    requires Perform(db, call, now) != db
    ensures id in Perform(db, call, now).jobs
    ensures Keeps(Reap(db, now).jobs[id], Perform(db, call, now).jobs[id], token, now, false)
  {
  }

  lemma SubmitTouchKeeps(db: Db, call: Call, now: Time, id: JobId, token: string)
    requires Allowed(db, call, now) && id in db.jobs && call.CallSubmit? && Perform(db, call, now) != db
    ensures id in Perform(db, call, now).jobs
    ensures Keeps(Reap(db, now).jobs[id], Perform(db, call, now).jobs[id], token, now, false)
  {
  }

  lemma ClaimTouchKeeps(db: Db, call: Call, now: Time, id: JobId, token: string)
    requires Allowed(db, call, now) && id in db.jobs && JobOk(db.jobs[id]) && call.CallClaim?
    ensures id in Perform(db, call, now).jobs
    ensures Keeps(Reap(db, now).jobs[id], Perform(db, call, now).jobs[id], token, now, false)
  {
    ReapQuietRow(db.jobs[id], now);
  }

  lemma FinishTouchKeeps(db: Db, call: Call, now: Time, id: JobId, token: string)
    requires id in db.jobs && JobOk(db.jobs[id]) && call.CallFinish? && Perform(db, call, now) != db
    ensures Keeps(Reap(db, now).jobs[id], Perform(db, call, now).jobs[id], token, now, call.id == id && call.lease == token)
  {
    ReapQuietRow(db.jobs[id], now);
  }

  lemma AppendTouchKeeps(db: Db, call: Call, now: Time, id: JobId, token: string)
    requires id in db.jobs && JobOk(db.jobs[id]) && call.CallAppendLog? && Perform(db, call, now) != db
    ensures Keeps(Reap(db, now).jobs[id], Perform(db, call, now).jobs[id], token, now, false)
  {
  }

  ghost predicate Finishing(call: Call, id: JobId, token: string) {
    call.CallFinish? && call.id == id && call.lease == token
  }

  lemma TouchKeeps(db: Db, call: Call, now: Time, id: JobId, token: string)
    requires Allowed(db, call, now) && id in db.jobs && JobOk(db.jobs[id]) && id in Perform(db, call, now).jobs
    requires Perform(db, call, now) != db
    ensures Keeps(Reap(db, now).jobs[id], Perform(db, call, now).jobs[id], token, now, Finishing(call, id, token))
  {
    match call {
      case CallFinish(_, _, _, _) => FinishTouchKeeps(db, call, now, id, token);
      case CallAppendLog(_, _, _, _) => AppendTouchKeeps(db, call, now, id, token);
      case CallPrune(_) =>
      case CallRead =>
      case CallSubmit(_, _, _) => SubmitTouchKeeps(db, call, now, id, token);
      case CallClaim(_, _, _, _) => ClaimTouchKeeps(db, call, now, id, token);
      case _ => UpdateTouchKeeps(db, call, now, id, token);
    }
  }

  lemma RowKeeps(db: Db, after: Db, now: Time, id: JobId, token: string, finishing: bool)
    requires id in db.jobs && JobOk(db.jobs[id]) && id in after.jobs
    requires Keeps(Reap(db, now).jobs[id], after.jobs[id], token, now, finishing)
    ensures Keeps(db.jobs[id], after.jobs[id], token, now, finishing)
  {
    ReapKeeps(db.jobs[id], token, now);
    KeepsTransitive(db.jobs[id], Reap(db, now).jobs[id], after.jobs[id], token, now, finishing);
  }

  lemma PerformKeeps(db: Db, call: Call, now: Time, id: JobId, token: string)
    requires Allowed(db, call, now) && id in db.jobs && JobOk(db.jobs[id]) && id in Perform(db, call, now).jobs
    ensures Keeps(db.jobs[id], Perform(db, call, now).jobs[id], token, now, Finishing(call, id, token))
  {
    var after := Perform(db, call, now);
    if after != db {
      TouchKeeps(db, call, now, id, token);
      RowKeeps(db, after, now, id, token, Finishing(call, id, token));
    }
  }

  /**
   A lease that reaches to `base + 60` goes on reaching there until that instant, unless its holder finishes;
   and a lease that has ended stays ended.
   */
  lemma LiveStep(db: Db, call: Call, now: Time, id: JobId, token: string, base: Time)
    requires Inv(db) && Allowed(db, call, now) && base <= now
    requires id in db.jobs ==> db.jobs[id].lease == Some(token)
    requires !(call.CallSubmit? && call.newId == id)
    ensures LiveUntil(db, id, token, base + LEASE_SECONDS) ==>
              || LiveUntil(Perform(db, call, now), id, token, base + LEASE_SECONDS)
              || now >= base + LEASE_SECONDS
              || Finishing(call, id, token)
    ensures !Live(db, id, token) ==> !Live(Perform(db, call, now), id, token)
  {
    var after := Perform(db, call, now);
    if id in db.jobs {
      assert JobOk(db.jobs[id]);
      OnlyPruneDeletes(db, call, now, id);
      if id in after.jobs {
        PerformKeepsInv(db, call, now);
        assert JobOk(after.jobs[id]);
        PerformKeeps(db, call, now, id, token);
      } else {
        assert Reap(db, now).jobs[id] == ReapJob(db.jobs[id], now);
      }
    } else {
      NewRows(db, call, now, id);
    }
  }

  /** A lease that is live and reaches a deadline either goes on reaching it or is over. */
  lemma LiveStepEnds(db: Db, call: Call, now: Time, id: JobId, token: string, base: Time)
    requires Inv(db) && Allowed(db, call, now) && base <= now
    requires id in db.jobs ==> db.jobs[id].lease == Some(token)
    requires !(call.CallSubmit? && call.newId == id)
    requires LiveUntil(db, id, token, base + LEASE_SECONDS)
    ensures var after := Perform(db, call, now);
            LiveUntil(after, id, token, base + LEASE_SECONDS) || !Live(after, id, token)
  {
    var after := Perform(db, call, now);
    if id in after.jobs {
      PerformKeepsInv(db, call, now);
      assert JobOk(after.jobs[id]) && (id in db.jobs ==> JobOk(db.jobs[id]));
      PerformKeeps(db, call, now, id, token);
    }
  }

  /** Only a submission adds a row, the row it announces. */
  lemma NewRows(db: Db, call: Call, now: Time, id: JobId)
    requires Allowed(db, call, now) && id !in db.jobs
    ensures id in Perform(db, call, now).jobs ==>
              call.CallSubmit? && call.newId == id && Perform(db, call, now).jobs[id].lease == None
  {
    match call {
      case CallAppendLog(target, lease, seqno, text) => AppendLogKeepsKeys(db, target, lease, seqno, text, now);
      case CallFinish(target, lease, status, result) => FinishKeepsKeys(db, target, lease, status, result, now);
      case _ =>
    }
  }

  /** Only a claim gives a row a lease, the lease it announces. */
  lemma NewLease(db: Db, call: Call, now: Time, id: JobId)
    requires Allowed(db, call, now) && id in Perform(db, call, now).jobs
    ensures var lease := Perform(db, call, now).jobs[id].lease;
            lease == None || (id in db.jobs && lease == db.jobs[id].lease)
            || (call.CallClaim? && call.pick == Some(id) && lease == Some(call.lease))
  {
    if id !in db.jobs {
      NewRows(db, call, now, id);
    } else {
      match call {
        case CallAppendLog(target, lease, seqno, text) => AppendLogKeepsLeases(db, target, lease, seqno, text, now, id);
        case CallFinish(target, lease, status, result) => FinishKeepsLeases(db, target, lease, status, result, now, id);
        case CallSubmit(spec, key, newId) => SubmitKeepsRows(db, spec, key, newId, now, id);
        case CallClaim(worker, _, lease, pick) => ClaimLeases(db, pick, worker, lease, now, id);
        case CallPrune(_) =>
        case CallRead =>
        case _ => UpdateKeepsLeases(db, call, now, id);
      }
    }
  }

  lemma ClaimLeases(db: Db, pick: Option<JobId>, worker: string, lease: string, now: Time, id: JobId)
    requires (pick.Some? ==> pick.value in db.jobs) && id in db.jobs
    ensures id in Claim(db, pick, worker, lease, now).jobs
    ensures Claim(db, pick, worker, lease, now).jobs[id].lease
            == if pick == Some(id) then Some(lease) else db.jobs[id].lease
  {
  }

  lemma UpdateKeepsLeases(db: Db, call: Call, now: Time, id: JobId)
    requires Allowed(db, call, now) && id in db.jobs
    requires call.CallHeartbeat? || call.CallCancel? || call.CallPublish?
    ensures id in Perform(db, call, now).jobs && Perform(db, call, now).jobs[id].lease == db.jobs[id].lease
  {
  }

  lemma SubmitKeepsRows(db: Db, spec: Spec, key: string, newId: JobId, now: Time, id: JobId)
    requires newId !in db.jobs && id in db.jobs
    ensures var after := Submit(db, spec, key, newId, now).After(db);
            id in after.jobs && after.jobs[id].lease == db.jobs[id].lease && after.logs == db.logs
  {
  }

  lemma SubmitKeepsLogs(db: Db, spec: Spec, key: string, newId: JobId, now: Time)
    ensures Submit(db, spec, key, newId, now).After(db).logs == db.logs
  {
  }

  lemma AppendLogKeepsLeases(db: Db, target: JobId, lease: string, seqno: nat, text: string, now: Time, id: JobId)
    requires id in db.jobs
    ensures id in AppendLog(db, target, lease, seqno, text, now).After(db).jobs
    ensures AppendLog(db, target, lease, seqno, text, now).After(db).jobs[id].lease == db.jobs[id].lease
  {
  }

  lemma FinishKeepsLeases(db: Db, target: JobId, lease: string, status: Status, result: string, now: Time, id: JobId)
    requires id in db.jobs
    ensures id in Finish(db, target, lease, status, result, now).After(db).jobs
    ensures Finish(db, target, lease, status, result, now).After(db).jobs[id].lease == db.jobs[id].lease
  {
  }

  /** Only `append_log` changes a log that stays: it adds the one row it was asked to add. */
  lemma LogStep(db: Db, call: Call, now: Time, id: JobId)
    requires Allowed(db, call, now) && id in Perform(db, call, now).jobs
    ensures var rows := Log(Perform(db, call, now), id);
            rows == Log(db, id)
            || (call.CallAppendLog? && call.id == id && Owned(Reap(db, now), id, call.lease).Ok?
                && rows == Log(db, id)[call.seqno := call.text] && call.seqno !in Log(db, id))
  {
    match call {
      case CallAppendLog(target, lease, seqno, text) => AppendLogStep(db, target, lease, seqno, text, now, id);
      case CallFinish(target, lease, status, result) => FinishKeepsLogs(db, target, lease, status, result, now, id);
      case CallSubmit(spec, key, newId) => SubmitKeepsLogs(db, spec, key, newId, now);
      case CallClaim(_, _, _, _) =>
      case CallPrune(_) =>
      case CallRead =>
      case _ => UpdateKeepsLogs(db, call, now, id);
    }
  }

  lemma UpdateKeepsLogs(db: Db, call: Call, now: Time, id: JobId)
    requires Allowed(db, call, now)
    requires call.CallHeartbeat? || call.CallCancel? || call.CallPublish?
    ensures Log(Perform(db, call, now), id) == Log(db, id)
  {
  }

  lemma AppendLogStep(db: Db, target: JobId, lease: string, seqno: nat, text: string, now: Time, id: JobId)
    ensures var rows := Log(AppendLog(db, target, lease, seqno, text, now).After(db), id);
            rows == Log(db, id)
            || (target == id && Owned(Reap(db, now), id, lease).Ok?
                && rows == Log(db, id)[seqno := text] && seqno !in Log(db, id))
  {
  }

  lemma FinishKeepsLogs(db: Db, target: JobId, lease: string, status: Status, result: string, now: Time, id: JobId)
    ensures Log(Finish(db, target, lease, status, result, now).After(db), id) == Log(db, id)
  {
  }
}
