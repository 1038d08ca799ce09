/** Every step keeps the protocol's invariant, and what follows for all runs. */
module ProtocolSafety {
  import opened Common
  import opened StoreSpec
  import opened LeaseSpec
  import opened Protocol
  import opened ProtocolDb
  import opened ProtocolInv
  import LogReader
  import StoreProps

  // ---------------------------------------------------------------------------------------
  // Server steps
  // ---------------------------------------------------------------------------------------

  lemma PlainKeepsInv(s: Sys, a: Action, t: Timing)
    requires Inv(s, t) && Enabled(s, a, t)
    requires a.SubmitJob? || a.CancelJob? || a.PruneJobs? || a.ReapJobs? || a.AdmitUpload?
    ensures Inv(Step(s, a, t), t)
  {
    var call := match a
      case SubmitJob(spec, key, newId) => CallSubmit(spec, key, newId)
      case CancelJob(id) => CallCancel(id)
      case PruneJobs(days) => CallPrune(days)
      case AdmitUpload(rid) => CallHeartbeat(s.sent[rid].body.job, s.sent[rid].body.token)
      case _ => CallRead;
    TransactKeepsInv(s, call, t);
    assert Step(s, a, t) == Transact(s, call);
  }

  lemma ClaimAllowed(s: Sys, rid: nat, token: string, pick: Option<JobId>, t: Timing)
    requires Inv(s, t) && Enabled(s, ServeClaim(rid, token, pick), t)
    ensures Legitimate(s, CallClaim(s.sent[rid].body.worker, s.sent[rid].body.projects, token, pick))
    ensures pick.Some? ==> pick.value in s.db.jobs && s.db.jobs[pick.value].lease == None
  {
    forall id | id in s.db.jobs ensures s.db.jobs[id].lease != Some(token) {
      assert s.db.jobs[id].lease.Some? ==> s.db.jobs[id].lease.value in s.usedTokens;
    }
    if pick.Some? {
      assert Eligible(Reap(s.db, s.now), s.sent[rid].body.projects, pick.value);
      assert StoreProps.JobOk(s.db.jobs[pick.value]);
    }
  }

  lemma GrantIsNew(s: Sys, rid: nat, token: string, id: JobId, t: Timing)
    requires Inv(s, t) && token !in s.usedTokens && id in s.db.jobs && s.db.jobs[id].lease == None
    ensures forall other {:trigger other in s.replies} :: other in s.replies ==>
              !SameGrant(Reply(rid, Granted(id, token)), other)
  {
    forall other | other in s.replies ensures !SameGrant(Reply(rid, Granted(id, token)), other) {
      assert GrantOk(s.db, s.usedJobs, s.usedTokens, s.sent, other);
    }
  }

  lemma GrantFits(s: Sys, rid: nat, token: string, id: JobId, t: Timing)
    requires Inv(s, t) && Enabled(s, ServeClaim(rid, token, Some(id)), t)
    ensures var call := CallClaim(s.sent[rid].body.worker, s.sent[rid].body.projects, token, Some(id));
            Allowed(s.db, call, s.now) && ReplyOk(Transact(s, call), Reply(rid, Granted(id, token)))
  {
    ClaimAllowed(s, rid, token, Some(id), t);
    GrantIsNew(s, rid, token, id, t);
    var body := s.sent[rid].body;
    var next := Transact(s, CallClaim(body.worker, body.projects, token, Some(id)));
    assert s.sent[rid].sentAt <= s.now;
    assert next.db.jobs[id] == Leased(Reap(s.db, s.now).jobs[id], body.worker, token, s.now);
    assert LiveUntil(next.db, id, token, s.sent[rid].sentAt + LEASE_SECONDS);
  }

  lemma ServeClaimKeepsInv(s: Sys, rid: nat, token: string, pick: Option<JobId>, t: Timing)
    requires Inv(s, t) && Enabled(s, ServeClaim(rid, token, pick), t)
    ensures Inv(Step(s, ServeClaim(rid, token, pick), t), t)
  {
    var call := CallClaim(s.sent[rid].body.worker, s.sent[rid].body.projects, token, pick);
    ClaimAllowed(s, rid, token, pick, t);
    TransactKeepsInv(s, call, t);
    var next := Transact(s, call);
    if pick.Some? {
      GrantFits(s, rid, token, pick.value, t);
      AddReplyKeepsInv(next, Reply(rid, Granted(pick.value, token)), t);
      assert Step(s, ServeClaim(rid, token, pick), t) == next.(replies := s.replies + {Reply(rid, Granted(pick.value, token))});
    } else {
      AddReplyKeepsInv(next, Reply(rid, NoJob), t);
      assert Step(s, ServeClaim(rid, token, pick), t) == next.(replies := s.replies + {Reply(rid, NoJob)});
    }
  }

  lemma HeartbeatRenews(db: Db, id: JobId, lease: string, now: Time)
    requires Heartbeat(db, id, lease, now).Commit?
    ensures LiveUntil(Heartbeat(db, id, lease, now).db, id, lease, now + LEASE_SECONDS)
  {
  }

  lemma AppendRecords(db: Db, id: JobId, lease: string, seqno: nat, text: string, now: Time)
    requires AppendLog(db, id, lease, seqno, text, now).Commit?
    ensures seqno in Log(AppendLog(db, id, lease, seqno, text, now).db, id)
  {
  }

  /** A reply that grants, renews, acknowledges and completes nothing. */
  lemma PlainReplyOk(s: Sys, rp: Reply)
    requires rp.answer.Refused? || rp.answer.Uploaded? || rp.answer.NoJob?
    ensures ReplyOk(s, rp)
  {
  }

  ghost function HeartbeatCall(body: Body): Call
    requires body.HeartbeatBody?
  {
    CallHeartbeat(body.job, body.token)
  }

  ghost function LogCall(body: Body): Call
    requires body.LogBody?
  {
    CallAppendLog(body.job, body.token, body.seqno, body.text)
  }

  lemma HeartbeatReplyOk(s: Sys, rid: nat)
    requires rid in s.sent && s.sent[rid].body.HeartbeatBody? && s.sent[rid].sentAt <= s.now
    ensures var body := s.sent[rid].body;
            var outcome := Heartbeat(s.db, body.job, body.token, s.now);
            ReplyOk(Transact(s, HeartbeatCall(body)), Reply(rid, AnswerTo(outcome, cancel => Renewal(cancel))))
  {
    var body := s.sent[rid].body;
    if Heartbeat(s.db, body.job, body.token, s.now).Commit? {
      HeartbeatRenews(s.db, body.job, body.token, s.now);
    }
  }

  lemma ServeHeartbeatKeepsInv(s: Sys, rid: nat, t: Timing)
    requires Inv(s, t) && rid in s.sent && s.sent[rid].body.HeartbeatBody?
    ensures Inv(ServeHeartbeatAt(s, rid, s.sent[rid].body), t)
  {
    var body := s.sent[rid].body;
    var outcome := Heartbeat(s.db, body.job, body.token, s.now);
    TransactKeepsInv(s, HeartbeatCall(body), t);
    assert s.sent[rid].sentAt <= s.now;
    HeartbeatReplyOk(s, rid);
    AddReplyKeepsInv(Transact(s, HeartbeatCall(body)), Reply(rid, AnswerTo(outcome, cancel => Renewal(cancel))), t);
  }

  lemma LogReplyOk(s: Sys, rid: nat)
    requires rid in s.sent && s.sent[rid].body.LogBody?
    ensures var body := s.sent[rid].body;
            var outcome := AppendLog(s.db, body.job, body.token, body.seqno, body.text, s.now);
            ReplyOk(Transact(s, LogCall(body)), Reply(rid, AnswerTo(outcome, _ => LogTaken)))
  {
    var body := s.sent[rid].body;
    if AppendLog(s.db, body.job, body.token, body.seqno, body.text, s.now).Commit? {
      AppendRecords(s.db, body.job, body.token, body.seqno, body.text, s.now);
    }
  }

  lemma LogLegitimate(s: Sys, rid: nat, t: Timing)
    requires Inv(s, t) && rid in s.sent && s.sent[rid].body.LogBody?
    ensures Legitimate(s, LogCall(s.sent[rid].body))
  {
    var body := s.sent[rid].body;
    assert HasOwner(s.sessions, body);
    assert body == LogBody(body.job, body.token, body.seqno, body.text);
  }

  lemma ServeLogKeepsInv(s: Sys, rid: nat, t: Timing)
    requires Inv(s, t) && rid in s.sent && s.sent[rid].body.LogBody?
    ensures Inv(ServeLogAt(s, rid, s.sent[rid].body), t)
  {
    var body := s.sent[rid].body;
    var outcome := AppendLog(s.db, body.job, body.token, body.seqno, body.text, s.now);
    LogLegitimate(s, rid, t);
    LogReplyOk(s, rid);
    TransactKeepsInv(s, LogCall(body), t);
    AddReplyKeepsInv(Transact(s, LogCall(body)), Reply(rid, AnswerTo(outcome, _ => LogTaken)), t);
  }

  lemma ServeUploadKeepsInv(s: Sys, rid: nat, t: Timing)
    requires Inv(s, t) && rid in s.sent && s.sent[rid].body.UploadBody?
    ensures Inv(ServeUploadAt(s, rid, s.sent[rid].body), t)
  {
    var body := s.sent[rid].body;
    var call := CallPublish(body.job, body.token, body.file, body.sha);
    var outcome := PublishArtifact(s.db, body.job, body.token, body.file, body.sha, s.now);
    TransactKeepsInv(s, call, t);
    var next := Transact(s, call);
    var rp := Reply(rid, if outcome.Commit? then Uploaded else Refused(outcome.error));
    PlainReplyOk(next, rp);
    AddReplyKeepsInv(next, rp, t);
    assert ServeUploadAt(s, rid, body) == next.(replies := s.replies + {rp});
  }

  lemma ServeFinishKeepsInv(s: Sys, rid: nat, t: Timing)
    requires Inv(s, t) && rid in s.sent && s.sent[rid].body.FinishBody?
    ensures Inv(ServeFinishAt(s, rid, s.sent[rid].body), t)
  {
    var body := s.sent[rid].body;
    var call := CallFinish(body.job, body.token, body.status, body.result);
    var outcome := Finish(s.db, body.job, body.token, body.status, body.result, s.now);
    TransactKeepsInv(s, call, t);
    var next := Transact(s, call);
    var rp := Reply(rid, if outcome.Commit? then Completed(outcome.value.status) else Refused(outcome.error));
    if outcome.Commit? {
      StoreProps.FinishRecords(s.db, body.job, body.token, body.status, body.result, s.now);
    } else {
      PlainReplyOk(next, rp);
    }
    AddReplyKeepsInv(next, rp, t);
    assert ServeFinishAt(s, rid, body) == next.(replies := s.replies + {rp});
  }

  // ---------------------------------------------------------------------------------------
  // Worker steps
  // ---------------------------------------------------------------------------------------

  lemma ClaimsKeepInv(s: Sys, claims: set<nat>, t: Timing)
    requires Inv(s, t) && forall sid :: sid in s.sessions ==> sid !in claims
    ensures Inv(s.(claims := claims), t)
  {
    forall sid | sid in s.sessions ensures SessionOk(s.sent, s.replies, claims, sid, s.sessions[sid]) {
      assert SessionOk(s.sent, s.replies, s.claims, sid, s.sessions[sid]);
    }
  }

  lemma SendClaimKeepsInv(s: Sys, rid: nat, worker: string, projects: seq<string>, t: Timing)
    requires Inv(s, t) && rid !in s.sent
    ensures Inv(Send(s, rid, ClaimBody(worker, projects)).(claims := s.claims + {rid}), t)
  {
    SendKeepsInv(s, rid, ClaimBody(worker, projects), t);
    var next := Send(s, rid, ClaimBody(worker, projects));
    forall sid | sid in s.sessions ensures sid !in s.claims + {rid} {
      assert SessionOk(s.sent, s.replies, s.claims, sid, s.sessions[sid]);
    }
    ClaimsKeepInv(next, s.claims + {rid}, t);
  }

  /** The granted job has no session yet, and nothing was logged for it. */
  lemma GrantIsUnused(s: Sys, rid: nat, job: JobId, token: string, t: Timing)
    requires Inv(s, t) && rid in s.claims && Reply(rid, Granted(job, token)) in s.replies
    ensures !HasSession(s.sessions, job) && rid !in s.sessions
    ensures job in s.db.jobs ==> Log(s.db, job) == map[]
  {
    forall sid | sid in s.sessions ensures s.sessions[sid].job != job && sid != rid {
      var session := s.sessions[sid];
      assert SessionOk(s.sent, s.replies, s.claims, sid, session);
      var rp := Reply(sid, Granted(session.job, session.token));
      assert SameGrant(rp, Reply(rid, Granted(job, token))) ==> rp == Reply(rid, Granted(job, token));
    }
  }

  lemma NewSessionKeepsInv(s: Sys, rid: nat, job: JobId, token: string, phase: Phase, t: Timing)
    requires Inv(s, t) && Durations(t) && rid in s.claims && rid in s.sent && Reply(rid, Granted(job, token)) in s.replies
    requires phase.Executing? ==> s.now <= s.sent[rid].sentAt + t.delivery
    ensures Inv(NewSession(s, rid, job, token, phase), t)
  {
    GrantIsUnused(s, rid, job, token, t);
    var claims := s.claims - {rid};
    forall sid | sid in s.sessions ensures sid !in claims {
      assert SessionOk(s.sent, s.replies, s.claims, sid, s.sessions[sid]);
    }
    ClaimsKeepInv(s, claims, t);
    var next := s.(claims := claims);
    var session := Session(job, token, Opened(s.sent[rid].sentAt), s.now, phase, None, None);
    assert ReplyHeld(s.now, s.db, s.sent, Reply(rid, Granted(job, token)));
    assert SessionFits(next, t, rid, session);
    PutSessionKeepsInv(next, rid, session, t);
  }

  lemma SendHeartbeatKeepsInv(s: Sys, sid: nat, rid: nat, t: Timing)
    requires Inv(s, t) && sid in s.sessions && rid !in s.sent
    ensures Inv(Update(Send(s, rid, HeartbeatBody(s.sessions[sid].job, s.sessions[sid].token)), sid,
                       s.sessions[sid].(heartbeat := Some(rid))), t)
  {
    var session := s.sessions[sid];
    var body := HeartbeatBody(session.job, session.token);
    assert MadeBy(session, body);
    SendKeepsInv(s, rid, body, t);
    var next := Send(s, rid, body);
    assert SessionOk(next.sent, next.replies, next.claims, sid, session);
    assert Held(s.now, s.db, s.sent, session.job, session.token, session.lease.lastOk);
    PutSessionKeepsInv(next, sid, session.(heartbeat := Some(rid)), t);
  }

  lemma SendKeepsOwner(s: Sys, sid: nat, rid: nat, body: Body, t: Timing)
    requires Inv(s, t) && sid in s.sessions && rid !in s.sent && MadeBy(s.sessions[sid], body)
    ensures Inv(Send(s, rid, body), t)
  {
    SendKeepsInv(s, rid, body, t);
  }

  lemma SendLogKeepsInv(s: Sys, sid: nat, rid: nat, t: Timing)
    requires Inv(s, t) && sid in s.sessions && rid !in s.sent && s.sessions[sid].lease.pending.Some?
    ensures var session := s.sessions[sid];
            Inv(Send(s, rid, LogBody(session.job, session.token, session.lease.sequence, session.lease.pending.value)), t)
  {
    var session := s.sessions[sid];
    assert LogOk(s.db, session);
    SendKeepsOwner(s, sid, rid, LogBody(session.job, session.token, session.lease.sequence, session.lease.pending.value), t);
  }

  lemma SendFinishKeepsInv(s: Sys, sid: nat, rid: nat, t: Timing)
    requires Inv(s, t) && sid in s.sessions && rid !in s.sent && s.sessions[sid].phase.Reporting?
    ensures var session := s.sessions[sid];
            Inv(Send(s, rid, FinishBody(session.job, session.token, session.phase.status, session.phase.result)), t)
  {
    var session := s.sessions[sid];
    SendKeepsOwner(s, sid, rid, FinishBody(session.job, session.token, session.phase.status, session.phase.result), t);
  }

  /** A change to a session that touches neither its log nor its receipt. */
  lemma ChangeKeepsInv(s: Sys, sid: nat, after: Session, t: Timing)
    requires Inv(s, t) && sid in s.sessions && Grows(s.sessions[sid], after)
    requires after.lease == s.sessions[sid].lease.(lastOk := after.lease.lastOk, cancelledAt := after.lease.cancelledAt)
    requires after.receipt == s.sessions[sid].receipt
    requires SessionOk(s.sent, s.replies, s.claims, sid, after)
    requires Held(s.now, s.db, s.sent, after.job, after.token, after.lease.lastOk)
    requires OnTime(s.now, after, t)
    ensures Inv(Update(s, sid, after), t)
  {
    assert LogOk(s.db, s.sessions[sid]);
    assert LogOk(s.db, after);
    PutSessionKeepsInv(s, sid, after, t);
  }

  /** Setting the cancel event now leaves an execution on time. */
  lemma CancelOnTime(now: Time, before: Session, after: Session, t: Timing)
    requires Durations(t) && OnTime(now, before, t)
    requires after.phase == before.phase && after.checkedAt == before.checkedAt
    requires after.lease.lastOk >= before.lease.lastOk
    requires after.lease.cancelledAt == before.lease.cancelledAt
             || (before.lease.cancelledAt.None? && after.lease.cancelledAt == Some(now))
    ensures OnTime(now, after, t)
  {
  }

  lemma HearHeartbeatKeepsInv(s: Sys, sid: nat, answer: Answer, t: Timing)
    requires Inv(s, t) && Durations(t) && sid in s.sessions && s.sessions[sid].heartbeat.Some?
    requires s.sessions[sid].heartbeat.value in s.sent && Reply(s.sessions[sid].heartbeat.value, answer) in s.replies
    ensures Inv(HeardHeartbeat(s, sid, answer), t)
  {
    var session := s.sessions[sid];
    var rid := session.heartbeat.value;
    var after := HeardHeartbeat(s, sid, answer).sessions[sid];
    assert SessionOk(s.sent, s.replies, s.claims, sid, session);
    assert ReplyHeld(s.now, s.db, s.sent, Reply(rid, answer));
    assert Held(s.now, s.db, s.sent, session.job, session.token, session.lease.lastOk);
    assert OnTime(s.now, session, t);
    CancelOnTime(s.now, session, after, t);
    ChangeKeepsInv(s, sid, after, t);
  }

  /** Looking at the deadline leaves an execution on time: past it, the cancel event is set. */
  lemma WatchOnTime(now: Time, session: Session, t: Timing)
    requires Durations(t) && OnTime(now, session, t)
    ensures OnTime(now, Watched(session, now), t)
  {
  }

  lemma WatchKeepsInv(s: Sys, sid: nat, t: Timing)
    requires Inv(s, t) && Durations(t) && sid in s.sessions
    ensures Inv(Update(s, sid, Watched(s.sessions[sid], s.now)), t)
  {
    var session := s.sessions[sid];
    var after := Watched(session, s.now);
    assert SessionOk(s.sent, s.replies, s.claims, sid, session);
    assert Held(s.now, s.db, s.sent, session.job, session.token, session.lease.lastOk);
    WatchOnTime(s.now, session, t);
    ChangeKeepsInv(s, sid, after, t);
  }

  /** Abandoning a heartbeat, ending the execution and deciding the outcome. */
  lemma PhaseKeepsInv(s: Sys, sid: nat, after: Session, t: Timing)
    requires Inv(s, t) && sid in s.sessions
    requires after == s.sessions[sid].(heartbeat := after.heartbeat, phase := after.phase)
    requires after.heartbeat == s.sessions[sid].heartbeat || after.heartbeat == None
    requires after.phase == s.sessions[sid].phase || (!s.sessions[sid].phase.Reporting? && !after.phase.Executing?)
    ensures Inv(Update(s, sid, after), t)
  {
    var session := s.sessions[sid];
    assert SessionOk(s.sent, s.replies, s.claims, sid, session);
    assert Held(s.now, s.db, s.sent, session.job, session.token, session.lease.lastOk);
    assert OnTime(s.now, session, t);
    ChangeKeepsInv(s, sid, after, t);
  }

  lemma StopLocallyKeepsInv(s: Sys, sid: nat, t: Timing)
    requires Inv(s, t) && Durations(t) && sid in s.sessions
    ensures Inv(OnLease(s, sid, LeaseSpec.Cancelled(s.sessions[sid].lease, s.now)), t)
  {
    var session := s.sessions[sid];
    var after := session.(lease := LeaseSpec.Cancelled(session.lease, s.now));
    assert SessionOk(s.sent, s.replies, s.claims, sid, session);
    assert Held(s.now, s.db, s.sent, session.job, session.token, session.lease.lastOk);
    assert OnTime(s.now, session, t);
    CancelOnTime(s.now, session, after, t);
    ChangeKeepsInv(s, sid, after, t);
  }

  lemma LogChangeKeepsInv(s: Sys, sid: nat, lease: LeaseState, t: Timing)
    requires Inv(s, t) && sid in s.sessions && Grows(s.sessions[sid], s.sessions[sid].(lease := lease))
    requires lease.lastOk == s.sessions[sid].lease.lastOk && lease.cancelledAt == s.sessions[sid].lease.cancelledAt
    requires LogOk(s.db, s.sessions[sid].(lease := lease))
    ensures Inv(OnLease(s, sid, lease), t)
  {
    var session := s.sessions[sid];
    assert SessionOk(s.sent, s.replies, s.claims, sid, session);
    assert Held(s.now, s.db, s.sent, session.job, session.token, session.lease.lastOk);
    assert OnTime(s.now, session, t);
    PutSessionKeepsInv(s, sid, session.(lease := lease), t);
  }

  lemma FormChunkKeepsInv(s: Sys, sid: nat, text: string, t: Timing)
    requires Inv(s, t) && sid in s.sessions && s.sessions[sid].lease.pending.None?
    ensures Inv(OnLease(s, sid, Formed(s.sessions[sid].lease, text)), t)
  {
    assert LogOk(s.db, s.sessions[sid]);
    LogChangeKeepsInv(s, sid, Formed(s.sessions[sid].lease, text), t);
  }

  lemma DeliveredLogOk(db: Db, session: Session)
    requires LogOk(db, session) && session.lease.pending.Some?
    requires session.job in db.jobs ==> session.lease.sequence in Log(db, session.job)
    ensures LogOk(db, session.(lease := Delivered(session.lease)))
  {
  }

  lemma HearLogKeepsInv(s: Sys, sid: nat, rid: nat, t: Timing)
    requires Inv(s, t) && sid in s.sessions && rid in s.sent && s.sent[rid].body.LogBody?
    requires s.sent[rid].body.token == s.sessions[sid].token
    requires s.sent[rid].body.seqno == s.sessions[sid].lease.sequence && s.sessions[sid].lease.pending.Some?
    requires Reply(rid, LogTaken) in s.replies
    ensures Inv(OnLease(s, sid, Delivered(s.sessions[sid].lease)), t)
  {
    var owner := RequestOwner(s, t, rid);
    OneSession(s, t, owner, sid);
    assert AckOk(s.db, s.sent, Reply(rid, LogTaken));
    assert LogOk(s.db, s.sessions[sid]);
    DeliveredLogOk(s.db, s.sessions[sid]);
    LogChangeKeepsInv(s, sid, Delivered(s.sessions[sid].lease), t);
  }

  lemma HearFinishKeepsInv(s: Sys, sid: nat, rid: nat, status: Status, t: Timing)
    requires Inv(s, t) && sid in s.sessions && rid in s.sent && s.sent[rid].body.FinishBody?
    requires s.sent[rid].body.token == s.sessions[sid].token && s.sessions[sid].phase.Reporting?
    requires Reply(rid, Completed(status)) in s.replies
    ensures Inv(HeardFinish(s, sid, status), t)
  {
    var session := s.sessions[sid];
    var owner := RequestOwner(s, t, rid);
    OneSession(s, t, owner, sid);
    assert DoneOk(s.db, s.sent, Reply(rid, Completed(status)));
    assert SessionOk(s.sent, s.replies, s.claims, sid, session);
    assert Held(s.now, s.db, s.sent, session.job, session.token, session.lease.lastOk);
    assert OnTime(s.now, session, t) && LogOk(s.db, session);
    PutSessionKeepsInv(s, sid, session.(receipt := Some(Receipt(status, session.phase.result))), t);
  }

  // ---------------------------------------------------------------------------------------
  // Reader steps
  // ---------------------------------------------------------------------------------------

  lemma PrefixIsContiguous(rows: LogRows, lease: LeaseState)
    requires StopAndWait(lease) && LogPrefix(rows, lease)
    ensures LogReader.Contiguous(rows)
  {
  }

  /** Each row of the page is the next chunk its worker formed. */
  lemma PageText(rows: LogRows, lease: LeaseState, after: int, page: seq<LogRow>, i: nat)
    requires StopAndWait(lease) && LogPrefix(rows, lease) && IsPage(rows, after, page) && after >= -1 && i < |page|
    ensures page[i].seqno == after + 1 + i < |lease.formed| && page[i].text == lease.formed[after + 1 + i]
  {
    PrefixIsContiguous(rows, lease);
    LogReader.PageContinues(rows, after, page, i);
    assert page[i].seqno in rows;
  }

  ghost predicate IsNext(formed: seq<string>, after: int, page: seq<LogRow>)
    requires after >= -1
  {
    forall i {:trigger page[i]} :: 0 <= i < |page| ==>
      page[i].seqno == after + 1 + i < |formed| && page[i].text == formed[after + 1 + i]
  }

  lemma PageIsNext(rows: LogRows, lease: LeaseState, after: int, page: seq<LogRow>)
    requires StopAndWait(lease) && LogPrefix(rows, lease) && IsPage(rows, after, page) && after >= -1
    ensures IsNext(lease.formed, after, page)
  {
    forall i {:trigger page[i]} | 0 <= i < |page|
      ensures page[i].seqno == after + 1 + i < |lease.formed| && page[i].text == lease.formed[after + 1 + i]
    {
      PageText(rows, lease, after, page, i);
    }
  }

  lemma TextsExtendReader(formed: seq<string>, r: Reader, page: seq<LogRow>)
    requires |r.printed| == r.after + 1 && r.printed <= formed
    requires IsNext(formed, r.after, page)
    ensures PrintPage(r, page).printed <= formed && |PrintPage(r, page).printed| == PrintPage(r, page).after + 1
  {
    var printed := PrintPage(r, page).printed;
    forall i | 0 <= i < |printed| ensures i < |formed| && printed[i] == formed[i] {
      if i > r.after {
        assert page[i - |r.printed|].seqno == i;
      }
    }
  }

  lemma PageExtendsReader(rows: LogRows, lease: LeaseState, r: Reader, page: seq<LogRow>)
    requires StopAndWait(lease) && LogPrefix(rows, lease) && IsPage(rows, r.after, page)
    requires |r.printed| == r.after + 1 && r.printed <= lease.formed
    ensures var after := PrintPage(r, page); after.printed <= lease.formed && |after.printed| == after.after + 1
  {
    PageIsNext(rows, lease, r.after, page);
    TextsExtendReader(lease.formed, r, page);
  }

  lemma PageReaderOk(s: Sys, r: Reader, page: seq<LogRow>, t: Timing)
    requires Inv(s, t) && ReaderOk(s.sessions, r) && r.job in s.db.jobs && IsPage(Log(s.db, r.job), r.after, page)
    ensures ReaderOk(s.sessions, PrintPage(r, page))
  {
    if page != [] {
      assert page[0].seqno in Log(s.db, r.job);
      assert HasSession(s.sessions, r.job);
    }
    forall sid | sid in s.sessions && s.sessions[sid].job == r.job
      ensures var after := PrintPage(r, page);
              after.printed <= s.sessions[sid].lease.formed && |after.printed| == after.after + 1
    {
      assert r.printed <= s.sessions[sid].lease.formed && LogOk(s.db, s.sessions[sid]);
      PageExtendsReader(Log(s.db, r.job), s.sessions[sid].lease, r, page);
    }
  }

  lemma ReadPageKeepsInv(s: Sys, k: nat, page: seq<LogRow>, t: Timing)
    requires Inv(s, t) && k in s.readers && s.readers[k].job in s.db.jobs
    requires IsPage(Log(s.db, s.readers[k].job), s.readers[k].after, page)
    ensures Inv(s.(readers := s.readers[k := PrintPage(s.readers[k], page)]), t)
  {
    assert ReaderOk(s.sessions, s.readers[k]);
    PageReaderOk(s, s.readers[k], page, t);
  }

  // ---------------------------------------------------------------------------------------
  // All steps, all runs
  // ---------------------------------------------------------------------------------------

  lemma ServerStepKeepsInv(s: Sys, a: Action, t: Timing)
    requires Inv(s, t) && Durations(t) && Enabled(s, a, t)
    requires a.ServeClaim? || a.ServeHeartbeat? || a.ServeLog?
    ensures Inv(Step(s, a, t), t)
  {
    match a {
      case ServeClaim(rid, token, pick) => ServeClaimKeepsInv(s, rid, token, pick, t);
      case ServeHeartbeat(rid) => ServeHeartbeatKeepsInv(s, rid, t);
      case ServeLog(rid) => ServeLogKeepsInv(s, rid, t);
    }
  }

  lemma ResultStepKeepsInv(s: Sys, a: Action, t: Timing)
    requires Inv(s, t) && Durations(t) && Enabled(s, a, t)
    requires a.ServeUpload? || a.ServeFinish?
    ensures Inv(Step(s, a, t), t)
  {
    match a {
      case ServeUpload(rid) => ServeUploadKeepsInv(s, rid, t);
      case ServeFinish(rid) => ServeFinishKeepsInv(s, rid, t);
    }
  }

  lemma SendUploadKeepsInv(s: Sys, sid: nat, rid: nat, file: string, sha: Hash, t: Timing)
    requires Inv(s, t) && Enabled(s, SendUpload(sid, rid, file, sha), t)
    ensures Inv(Step(s, SendUpload(sid, rid, file, sha), t), t)
  {
    SendKeepsOwner(s, sid, rid, UploadBody(s.sessions[sid].job, s.sessions[sid].token, file, sha), t);
  }

  lemma SendStepKeepsInv(s: Sys, a: Action, t: Timing)
    requires Inv(s, t) && Enabled(s, a, t)
    requires a.SendLog? || a.SendFinish?
    ensures Inv(Step(s, a, t), t)
  {
    match a {
      case SendLog(sid, rid) => SendLogKeepsInv(s, sid, rid, t);
      case SendFinish(sid, rid) => SendFinishKeepsInv(s, sid, rid, t);
    }
  }

  lemma HearStepKeepsInv(s: Sys, a: Action, t: Timing)
    requires Inv(s, t) && Durations(t) && Enabled(s, a, t)
    requires a.HearHeartbeat? || a.HearLog?
    ensures Inv(Step(s, a, t), t)
  {
    match a {
      case HearHeartbeat(sid, answer) => HearHeartbeatKeepsInv(s, sid, answer, t);
      case HearLog(sid, rid) => HearLogKeepsInv(s, sid, rid, t);
    }
  }

  lemma GrantedStepKeepsInv(s: Sys, a: Action, t: Timing)
    requires Inv(s, t) && Durations(t) && Enabled(s, a, t)
    requires a.AcceptClaim? || a.DeclineClaim?
    ensures Inv(Step(s, a, t), t)
  {
    match a {
      case AcceptClaim(rid, job, token) => NewSessionKeepsInv(s, rid, job, token, Executing, t);
      case DeclineClaim(rid, job, token, result) =>
        NewSessionKeepsInv(s, rid, job, token, Reporting(Status.Cancelled, result), t);
    }
  }

  lemma LocalStepKeepsInv(s: Sys, a: Action, t: Timing)
    requires Inv(s, t) && Durations(t) && Enabled(s, a, t)
    requires a.AbandonHeartbeat? || a.EndExecution? || a.Decide?
    ensures Inv(Step(s, a, t), t)
  {
    match a {
      case AbandonHeartbeat(sid) => PhaseKeepsInv(s, sid, s.sessions[sid].(heartbeat := None), t);
      case EndExecution(sid) => PhaseKeepsInv(s, sid, s.sessions[sid].(phase := Stopped), t);
      case Decide(sid, status, result) => PhaseKeepsInv(s, sid, s.sessions[sid].(phase := Reporting(status, result)), t);
    }
  }

  lemma LeaseStepKeepsInv(s: Sys, a: Action, t: Timing)
    requires Inv(s, t) && Durations(t) && Enabled(s, a, t)
    requires a.Watch? || a.StopLocally? || a.FormChunk?
    ensures Inv(Step(s, a, t), t)
  {
    match a {
      case Watch(sid) => WatchKeepsInv(s, sid, t);
      case StopLocally(sid) => StopLocallyKeepsInv(s, sid, t);
      case FormChunk(sid, text) => FormChunkKeepsInv(s, sid, text, t);
    }
  }

  lemma AskStepKeepsInv(s: Sys, a: Action, t: Timing)
    requires Inv(s, t) && Enabled(s, a, t)
    requires a.SendClaim? || a.SendHeartbeat?
    ensures Inv(Step(s, a, t), t)
  {
    match a {
      case SendClaim(rid, worker, projects) => SendClaimKeepsInv(s, rid, worker, projects, t);
      case SendHeartbeat(sid, rid) => SendHeartbeatKeepsInv(s, sid, rid, t);
    }
  }

  lemma OpenReaderKeepsInv(s: Sys, k: nat, job: JobId, t: Timing)
    requires Inv(s, t) && k !in s.readers
    ensures Inv(s.(readers := s.readers[k := Reader(job, -1, [])]), t)
  {
  }

  lemma ReaderStepKeepsInv(s: Sys, a: Action, t: Timing)
    requires Inv(s, t) && Enabled(s, a, t)
    requires a.OpenReader? || a.ReadPage?
    ensures Inv(Step(s, a, t), t)
  {
    match a {
      case OpenReader(k, job) => OpenReaderKeepsInv(s, k, job, t);
      case ReadPage(k, page) => ReadPageKeepsInv(s, k, page, t);
    }
  }

  /** Every step of the system keeps the invariant. */
  lemma StepKeepsInv(s: Sys, a: Action, t: Timing)
    requires Inv(s, t) && Durations(t) && Enabled(s, a, t)
    ensures Inv(Step(s, a, t), t)
  {
    if a.ServeClaim? || a.ServeHeartbeat? || a.ServeLog? {
      ServerStepKeepsInv(s, a, t);
    } else if a.ServeUpload? || a.ServeFinish? {
      ResultStepKeepsInv(s, a, t);
    } else if a.SubmitJob? || a.CancelJob? || a.PruneJobs? || a.ReapJobs? || a.AdmitUpload? {
      PlainKeepsInv(s, a, t);
    } else if a.AcceptClaim? || a.DeclineClaim? {
      GrantedStepKeepsInv(s, a, t);
    } else if a.HearHeartbeat? || a.HearLog? {
      HearStepKeepsInv(s, a, t);
    } else if a.HearFinish? {
      HearFinishKeepsInv(s, a.sid, a.rid, a.status, t);
    } else if a.Watch? || a.StopLocally? || a.FormChunk? {
      LeaseStepKeepsInv(s, a, t);
    } else if a.SendClaim? || a.SendHeartbeat? {
      AskStepKeepsInv(s, a, t);
    } else if a.SendUpload? {
      SendUploadKeepsInv(s, a.sid, a.rid, a.file, a.sha, t);
    } else if a.SendLog? || a.SendFinish? {
      SendStepKeepsInv(s, a, t);
    } else if a.AbandonHeartbeat? || a.EndExecution? || a.Decide? {
      LocalStepKeepsInv(s, a, t);
    } else if a.Tick? {
      TickKeepsInv(s, a.later, t);
    } else {
      ReaderStepKeepsInv(s, a, t);
    }
  }

  lemma InitialInv(t: Timing)
    ensures Inv(INITIAL, t)
  {
    assert QueuedIds(EMPTY_DB) == {};
  }

  lemma {:induction false} RunKeepsInv(states: seq<Sys>, actions: seq<Action>, t: Timing, n: nat)
    requires IsSystemRun(states, actions, t) && Durations(t) && n < |states|
    ensures Inv(states[n], t)
  {
    if n == 0 {
      InitialInv(t);
    } else {
      RunKeepsInv(states, actions, t, n - 1);
      assert states[n] == Step(states[n - 1], actions[n - 1], t);
      StepKeepsInv(states[n - 1], actions[n - 1], t);
    }
  }

  lemma ReachableInv(s: Sys, t: Timing)
    requires Reachable(s, t) && Durations(t)
    ensures Inv(s, t)
  {
    var states, actions :| IsSystemRun(states, actions, t) && states[|states| - 1] == s;
    RunKeepsInv(states, actions, t, |states| - 1);
  }

  lemma ServeCall(s: Sys, a: Action, t: Timing) returns (call: Call)
    requires Enabled(s, a, t) && (a.ServeHeartbeat? || a.ServeLog?)
    ensures Allowed(s.db, call, s.now) && !call.CallPrune? && Step(s, a, t).db == Perform(s.db, call, s.now)
  {
    var body := s.sent[a.rid].body;
    call := if a.ServeHeartbeat? then HeartbeatCall(body) else LogCall(body);
  }

  lemma ResultCall(s: Sys, a: Action, t: Timing) returns (call: Call)
    requires Enabled(s, a, t) && (a.ServeUpload? || a.ServeFinish?)
    ensures Allowed(s.db, call, s.now) && !call.CallPrune? && Step(s, a, t).db == Perform(s.db, call, s.now)
  {
    var body := s.sent[a.rid].body;
    call := if a.ServeUpload? then CallPublish(body.job, body.token, body.file, body.sha)
            else CallFinish(body.job, body.token, body.status, body.result);
  }

  lemma PlainCall(s: Sys, a: Action, t: Timing) returns (call: Call)
    requires Inv(s, t) && Enabled(s, a, t)
    requires a.SubmitJob? || a.CancelJob? || a.PruneJobs? || a.ReapJobs? || a.AdmitUpload? || a.ServeClaim?
    ensures Allowed(s.db, call, s.now) && (call.CallPrune? ==> a.PruneJobs?)
    ensures Step(s, a, t).db == Perform(s.db, call, s.now)
  {
    match a {
      case SubmitJob(spec, key, newId) => call := CallSubmit(spec, key, newId);
      case CancelJob(id) => call := CallCancel(id);
      case PruneJobs(days) => call := CallPrune(days);
      case ReapJobs => call := CallRead;
      case AdmitUpload(rid) => call := CallHeartbeat(s.sent[rid].body.job, s.sent[rid].body.token);
      case ServeClaim(rid, token, pick) =>
        ClaimAllowed(s, rid, token, pick, t);
        call := CallClaim(s.sent[rid].body.worker, s.sent[rid].body.projects, token, pick);
    }
  }

  /** Every step that changes the database performs one transaction. */
  lemma ActionCall(s: Sys, a: Action, t: Timing) returns (call: Call)
    requires Inv(s, t) && Enabled(s, a, t) && Step(s, a, t).db != s.db
    ensures Allowed(s.db, call, s.now) && (call.CallPrune? ==> a.PruneJobs?)
    ensures Step(s, a, t).db == Perform(s.db, call, s.now)
  {
    if a.ServeHeartbeat? || a.ServeLog? {
      call := ServeCall(s, a, t);
    } else if a.ServeUpload? || a.ServeFinish? {
      call := ResultCall(s, a, t);
    } else {
      call := PlainCall(s, a, t);
    }
  }
}
