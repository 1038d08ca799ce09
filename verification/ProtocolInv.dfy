/** The inductive invariant of the protocol, and that each kind of elementary change keeps it. */
module ProtocolInv {
  import opened Common
  import opened StoreSpec
  import opened LeaseSpec
  import opened Protocol
  import opened ProtocolDb
  import StoreProps

  // ---------------------------------------------------------------------------------------
  // The invariant
  // ---------------------------------------------------------------------------------------

  ghost predicate FinishSent(sent: map<nat, Request>, token: string) {
    exists rid :: rid in sent && sent[rid].body.FinishBody? && sent[rid].body.token == token
  }

  /**
   The server renewed this lease by a request sent at `base`: while it is live it lasts to `base + 60`, and it
   can have ended earlier only because a completion was sent under it.
   */
  ghost predicate Held(now: Time, db: Db, sent: map<nat, Request>, job: JobId, token: string, base: Time) {
    && base <= now
    && (LiveUntil(db, job, token, base + LEASE_SECONDS)
        || (!Live(db, job, token) && (now >= base + LEASE_SECONDS || FinishSent(sent, token))))
  }

  ghost predicate DbInv(db: Db, usedJobs: set<JobId>, usedTokens: set<string>) {
    && StoreProps.Inv(db)
    && db.jobs.Keys <= usedJobs
    && "" !in usedTokens
    && (forall id {:trigger db.jobs[id].lease} :: id in db.jobs && db.jobs[id].lease.Some? ==>
          db.jobs[id].lease.value in usedTokens)
  }

  ghost predicate LeaseOf(db: Db, job: JobId, token: string) {
    job in db.jobs ==> db.jobs[job].lease == Some(token)
  }

  ghost predicate GrantOk(db: Db, usedJobs: set<JobId>, usedTokens: set<string>, sent: map<nat, Request>, rp: Reply) {
    rp.answer.Granted? ==>
      && rp.rid in sent && sent[rp.rid].body.ClaimBody?
      && rp.answer.job in usedJobs && rp.answer.token in usedTokens && LeaseOf(db, rp.answer.job, rp.answer.token)
  }

  ghost predicate GrantInv(db: Db, usedJobs: set<JobId>, usedTokens: set<string>, sent: map<nat, Request>, replies: set<Reply>) {
    forall rp {:trigger rp in replies} :: rp in replies ==> GrantOk(db, usedJobs, usedTokens, sent, rp)
  }

  predicate SameGrant(a: Reply, b: Reply) {
    && a.answer.Granted? && b.answer.Granted?
    && (a.answer.job == b.answer.job || a.answer.token == b.answer.token)
  }

  ghost predicate UniqueGrants(replies: set<Reply>) {
    forall a, b {:trigger a in replies, b in replies} ::
      a in replies && b in replies && SameGrant(a, b) ==> a == b
  }

  ghost predicate ReplyHeld(now: Time, db: Db, sent: map<nat, Request>, rp: Reply) {
    && (rp.answer.Granted? ==>
          rp.rid in sent && Held(now, db, sent, rp.answer.job, rp.answer.token, sent[rp.rid].sentAt))
    && (rp.answer.Renewal? ==>
          rp.rid in sent && sent[rp.rid].body.HeartbeatBody?
          && Held(now, db, sent, sent[rp.rid].body.job, sent[rp.rid].body.token, sent[rp.rid].sentAt))
  }

  ghost predicate HeldReplies(now: Time, db: Db, sent: map<nat, Request>, replies: set<Reply>) {
    forall rp {:trigger rp in replies} :: rp in replies ==> ReplyHeld(now, db, sent, rp)
  }

  /** What a session is, and the heartbeat it waits for. */
  ghost predicate SessionOk(sent: map<nat, Request>, replies: set<Reply>, claims: set<nat>, sid: nat, session: Session) {
    && sid in sent && sid !in claims && Reply(sid, Granted(session.job, session.token)) in replies
    && (session.heartbeat.Some? ==>
          session.heartbeat.value in sent
          && sent[session.heartbeat.value].body == HeartbeatBody(session.job, session.token)
          && sent[session.heartbeat.value].sentAt >= session.lease.lastOk)
  }

  ghost predicate SessionInv(sent: map<nat, Request>, replies: set<Reply>, claims: set<nat>, sessions: map<nat, Session>) {
    forall sid {:trigger sessions[sid]} :: sid in sessions ==> SessionOk(sent, replies, claims, sid, sessions[sid])
  }

  ghost predicate HeldSessions(now: Time, db: Db, sent: map<nat, Request>, sessions: map<nat, Session>) {
    forall sid {:trigger sessions[sid]} :: sid in sessions ==>
      Held(now, db, sent, sessions[sid].job, sessions[sid].token, sessions[sid].lease.lastOk)
  }

  /** A request made under a lease says what its session says. */
  ghost predicate MadeBy(session: Session, body: Body) {
    match body
    case ClaimBody(_, _) => true
    case HeartbeatBody(job, token) => job == session.job && token == session.token
    case LogBody(job, token, seqno, text) =>
      && job == session.job && token == session.token
      && seqno <= session.lease.sequence && seqno < |session.lease.formed| && session.lease.formed[seqno] == text
    case UploadBody(job, token, _, _) => job == session.job && token == session.token
    case FinishBody(job, token, status, result) =>
      job == session.job && token == session.token && session.phase == Reporting(status, result)
  }

  ghost predicate HasOwner(sessions: map<nat, Session>, body: Body) {
    body.ClaimBody? || exists sid :: sid in sessions && MadeBy(sessions[sid], body)
  }

  ghost predicate RequestInv(now: Time, sent: map<nat, Request>, sessions: map<nat, Session>) {
    forall rid {:trigger sent[rid]} :: rid in sent ==> sent[rid].sentAt <= now && HasOwner(sessions, sent[rid].body)
  }

  /** The watchdog, looking at the deadline at this instant, need not have cancelled. */
  predicate InTime(instant: Time, lastOk: Time, t: Timing) {
    instant <= lastOk + t.delivery || instant < lastOk + RENEWAL_DEADLINE
  }

  /** While a job executes, the local deadline and the environment's promises bound how late it can be. */
  ghost predicate OnTime(now: Time, session: Session, t: Timing) {
    session.phase.Executing? ==>
      var lease := session.lease;
      if lease.cancelledAt.Some? then
        InTime(lease.cancelledAt.value - t.poll, lease.lastOk, t) && now <= lease.cancelledAt.value + t.observe
      else
        InTime(session.checkedAt, lease.lastOk, t) && now <= session.checkedAt + t.poll
  }

  ghost predicate TimeInv(now: Time, sessions: map<nat, Session>, t: Timing) {
    forall sid {:trigger sessions[sid]} :: sid in sessions ==> OnTime(now, sessions[sid], t)
  }

  /** The server's log is a prefix of the formed chunks, as long as `sequence` or one longer. */
  ghost predicate LogPrefix(rows: LogRows, lease: LeaseState) {
    && (forall k {:trigger k in rows} :: k in rows ==> k < |lease.formed| && rows[k] == lease.formed[k])
    && (forall k {:trigger k in rows} :: 0 <= k < lease.sequence ==> k in rows)
  }

  ghost predicate LogOk(db: Db, session: Session) {
    && StopAndWait(session.lease)
    && (session.job in db.jobs ==> LogPrefix(Log(db, session.job), session.lease))
  }

  ghost predicate HasSession(sessions: map<nat, Session>, job: JobId) {
    exists sid :: sid in sessions && sessions[sid].job == job
  }

  ghost predicate LogInv(db: Db, sessions: map<nat, Session>) {
    && (forall sid {:trigger sessions[sid]} :: sid in sessions ==> LogOk(db, sessions[sid]))
    && (forall id {:trigger Log(db, id)} :: id in db.jobs && Log(db, id) != map[] ==> HasSession(sessions, id))
  }

  ghost predicate AckOk(db: Db, sent: map<nat, Request>, rp: Reply) {
    rp.answer.LogTaken? ==>
      && rp.rid in sent && sent[rp.rid].body.LogBody?
      && (sent[rp.rid].body.job in db.jobs ==> sent[rp.rid].body.seqno in Log(db, sent[rp.rid].body.job))
  }

  ghost predicate AckInv(db: Db, sent: map<nat, Request>, replies: set<Reply>) {
    forall rp {:trigger rp in replies} :: rp in replies ==> AckOk(db, sent, rp)
  }

  /** If the job's row still exists, it is finished with this outcome. */
  ghost predicate Recorded(db: Db, job: JobId, status: Status, result: string) {
    job in db.jobs ==>
      db.jobs[job].Terminal() && db.jobs[job].status == status && db.jobs[job].result == Some(result)
  }

  ghost predicate DoneOk(db: Db, sent: map<nat, Request>, rp: Reply) {
    rp.answer.Completed? ==>
      && rp.rid in sent && sent[rp.rid].body.FinishBody?
      && Recorded(db, sent[rp.rid].body.job, rp.answer.status, sent[rp.rid].body.result)
  }

  ghost predicate DoneInv(db: Db, sent: map<nat, Request>, replies: set<Reply>) {
    forall rp {:trigger rp in replies} :: rp in replies ==> DoneOk(db, sent, rp)
  }

  ghost predicate ReceiptInv(db: Db, sessions: map<nat, Session>) {
    forall sid {:trigger sessions[sid]} :: sid in sessions && sessions[sid].receipt.Some? ==>
      Recorded(db, sessions[sid].job, sessions[sid].receipt.value.status, sessions[sid].receipt.value.result)
  }

  /** A reader has printed exactly the chunks up to its cursor. */
  ghost predicate ReaderOk(sessions: map<nat, Session>, r: Reader) {
    && |r.printed| == r.after + 1
    && (r.printed != [] ==> HasSession(sessions, r.job))
    && (forall sid {:trigger sessions[sid]} :: sid in sessions && sessions[sid].job == r.job ==>
          r.printed <= sessions[sid].lease.formed)
  }

  ghost predicate ReaderInv(sessions: map<nat, Session>, readers: map<nat, Reader>) {
    forall k {:trigger readers[k]} :: k in readers ==> ReaderOk(sessions, readers[k])
  }

  ghost predicate ServerInv(s: Sys) {
    && DbInv(s.db, s.usedJobs, s.usedTokens)
    && GrantInv(s.db, s.usedJobs, s.usedTokens, s.sent, s.replies)
    && UniqueGrants(s.replies)
    && HeldReplies(s.now, s.db, s.sent, s.replies)
    && AckInv(s.db, s.sent, s.replies)
    && DoneInv(s.db, s.sent, s.replies)
  }

  ghost predicate WorkerInv(s: Sys, t: Timing) {
    && SessionInv(s.sent, s.replies, s.claims, s.sessions)
    && RequestInv(s.now, s.sent, s.sessions)
    && HeldSessions(s.now, s.db, s.sent, s.sessions)
    && TimeInv(s.now, s.sessions, t)
    && LogInv(s.db, s.sessions)
    && ReceiptInv(s.db, s.sessions)
    && ReaderInv(s.sessions, s.readers)
  }

  ghost predicate Inv(s: Sys, t: Timing) {
    ServerInv(s) && WorkerInv(s, t)
  }

  // ---------------------------------------------------------------------------------------
  // Change 1: the server performs a transaction
  // ---------------------------------------------------------------------------------------

  /** New ids and tokens are new, log appends and completions come from requests that were sent. */
  ghost predicate Legitimate(s: Sys, call: Call) {
    && Allowed(s.db, call, s.now)
    && (call.CallSubmit? ==> call.newId !in s.usedJobs)
    && (call.CallClaim? ==> call.lease !in s.usedTokens)
    && (call.CallAppendLog? ==> HasOwner(s.sessions, LogBody(call.id, call.lease, call.seqno, call.text)))
    && (call.CallFinish? ==> FinishSent(s.sent, call.lease))
  }

  ghost function Transact(s: Sys, call: Call): Sys
    requires Allowed(s.db, call, s.now)
  {
    s.(db := Perform(s.db, call, s.now),
       usedJobs := if call.CallSubmit? then s.usedJobs + {call.newId} else s.usedJobs,
       usedTokens := if call.CallClaim? && call.pick.Some? then s.usedTokens + {call.lease} else s.usedTokens)
  }

  lemma TransactDb(s: Sys, call: Call)
    requires DbInv(s.db, s.usedJobs, s.usedTokens) && Legitimate(s, call)
    ensures DbInv(Transact(s, call).db, Transact(s, call).usedJobs, Transact(s, call).usedTokens)
  {
    var next := Transact(s, call);
    StoreProps.PerformKeepsInv(s.db, call, s.now);
    forall id | id in next.db.jobs
      ensures id in next.usedJobs
      ensures next.db.jobs[id].lease.Some? ==> next.db.jobs[id].lease.value in next.usedTokens
    {
      if id !in s.db.jobs {
        NewRows(s.db, call, s.now, id);
      }
      NewLease(s.db, call, s.now, id);
    }
  }

  lemma TransactLeaseOf(s: Sys, call: Call, job: JobId, token: string)
    requires DbInv(s.db, s.usedJobs, s.usedTokens) && Legitimate(s, call)
    requires job in s.usedJobs && LeaseOf(s.db, job, token)
    ensures LeaseOf(Transact(s, call).db, job, token)
  {
    var next := Transact(s, call);
    if job in next.db.jobs {
      if job in s.db.jobs {
        StoreProps.PerformMoves(s.db, call, s.now, job);
      } else {
        NewRows(s.db, call, s.now, job);
      }
    }
  }

  lemma TransactHeld(s: Sys, call: Call, job: JobId, token: string, base: Time)
    requires DbInv(s.db, s.usedJobs, s.usedTokens) && Legitimate(s, call)
    requires job in s.usedJobs && LeaseOf(s.db, job, token) && Held(s.now, s.db, s.sent, job, token, base)
    ensures Held(s.now, Transact(s, call).db, s.sent, job, token, base)
  {
    LiveStep(s.db, call, s.now, job, token, base);
    if LiveUntil(s.db, job, token, base + LEASE_SECONDS) {
      LiveStepEnds(s.db, call, s.now, job, token, base);
    }
  }

  lemma TransactRecorded(s: Sys, call: Call, job: JobId, status: Status, result: string)
    requires DbInv(s.db, s.usedJobs, s.usedTokens) && Legitimate(s, call)
    requires job in s.usedJobs && Recorded(s.db, job, status, result)
    ensures Recorded(Transact(s, call).db, job, status, result)
  {
    var next := Transact(s, call);
    if job in next.db.jobs {
      if job in s.db.jobs {
        StoreProps.PerformMoves(s.db, call, s.now, job);
      } else {
        NewRows(s.db, call, s.now, job);
      }
    }
  }

  lemma TransactAcked(s: Sys, call: Call, job: JobId, seqno: nat)
    requires DbInv(s.db, s.usedJobs, s.usedTokens) && Legitimate(s, call) && job in s.usedJobs
    requires job in s.db.jobs ==> seqno in Log(s.db, job)
    ensures job in Transact(s, call).db.jobs ==> seqno in Log(Transact(s, call).db, job)
  {
    var next := Transact(s, call);
    if job in next.db.jobs {
      if job in s.db.jobs {
        LogStep(s.db, call, s.now, job);
      } else {
        NewRows(s.db, call, s.now, job);
      }
    }
  }

  // Facts about sessions

  lemma SessionGrant(s: Sys, t: Timing, sid: nat)
    requires Inv(s, t) && sid in s.sessions
    ensures s.sessions[sid].job in s.usedJobs && s.sessions[sid].token in s.usedTokens
    ensures LeaseOf(s.db, s.sessions[sid].job, s.sessions[sid].token)
  {
    var session := s.sessions[sid];
    assert SessionOk(s.sent, s.replies, s.claims, sid, session);
    assert GrantOk(s.db, s.usedJobs, s.usedTokens, s.sent, Reply(sid, Granted(session.job, session.token)));
  }

  /** A job, and a lease, belong to one session. */
  lemma OneSession(s: Sys, t: Timing, a: nat, b: nat)
    requires Inv(s, t) && a in s.sessions && b in s.sessions
    requires s.sessions[a].job == s.sessions[b].job || s.sessions[a].token == s.sessions[b].token
    ensures a == b
  {
    assert SessionOk(s.sent, s.replies, s.claims, a, s.sessions[a]);
    assert SessionOk(s.sent, s.replies, s.claims, b, s.sessions[b]);
    assert SameGrant(Reply(a, Granted(s.sessions[a].job, s.sessions[a].token)),
                     Reply(b, Granted(s.sessions[b].job, s.sessions[b].token)));
  }

  lemma RequestOwner(s: Sys, t: Timing, rid: nat) returns (sid: nat)
    requires Inv(s, t) && rid in s.sent && !s.sent[rid].body.ClaimBody?
    ensures sid in s.sessions && MadeBy(s.sessions[sid], s.sent[rid].body)
    ensures s.sent[rid].sentAt <= s.now
    ensures s.sent[rid].body.job in s.usedJobs && LeaseOf(s.db, s.sent[rid].body.job, s.sent[rid].body.token)
  {
    assert HasOwner(s.sessions, s.sent[rid].body);
    sid :| sid in s.sessions && MadeBy(s.sessions[sid], s.sent[rid].body);
    SessionGrant(s, t, sid);
  }

  lemma TransactGrants(s: Sys, call: Call, t: Timing)
    requires Inv(s, t) && Legitimate(s, call)
    ensures var next := Transact(s, call); GrantInv(next.db, next.usedJobs, next.usedTokens, next.sent, next.replies)
  {
    var next := Transact(s, call);
    forall rp | rp in next.replies ensures GrantOk(next.db, next.usedJobs, next.usedTokens, next.sent, rp) {
      assert GrantOk(s.db, s.usedJobs, s.usedTokens, s.sent, rp);
      if rp.answer.Granted? {
        TransactLeaseOf(s, call, rp.answer.job, rp.answer.token);
      }
    }
  }

  lemma TransactReplies(s: Sys, call: Call, t: Timing)
    requires Inv(s, t) && Legitimate(s, call)
    ensures HeldReplies(s.now, Transact(s, call).db, s.sent, s.replies)
  {
    forall rp | rp in s.replies ensures ReplyHeld(s.now, Transact(s, call).db, s.sent, rp) {
      assert ReplyHeld(s.now, s.db, s.sent, rp);
      if rp.answer.Granted? {
        assert GrantOk(s.db, s.usedJobs, s.usedTokens, s.sent, rp);
        TransactHeld(s, call, rp.answer.job, rp.answer.token, s.sent[rp.rid].sentAt);
      } else if rp.answer.Renewal? {
        var owner := RequestOwner(s, t, rp.rid);
        TransactHeld(s, call, s.sent[rp.rid].body.job, s.sent[rp.rid].body.token, s.sent[rp.rid].sentAt);
      }
    }
  }

  lemma TransactAcks(s: Sys, call: Call, t: Timing)
    requires Inv(s, t) && Legitimate(s, call)
    ensures AckInv(Transact(s, call).db, s.sent, s.replies) && DoneInv(Transact(s, call).db, s.sent, s.replies)
  {
    forall rp | rp in s.replies
      ensures AckOk(Transact(s, call).db, s.sent, rp) && DoneOk(Transact(s, call).db, s.sent, rp)
    {
      assert AckOk(s.db, s.sent, rp) && DoneOk(s.db, s.sent, rp);
      if rp.answer.LogTaken? {
        var owner := RequestOwner(s, t, rp.rid);
        TransactAcked(s, call, s.sent[rp.rid].body.job, s.sent[rp.rid].body.seqno);
      } else if rp.answer.Completed? {
        var owner := RequestOwner(s, t, rp.rid);
        TransactRecorded(s, call, s.sent[rp.rid].body.job, rp.answer.status, s.sent[rp.rid].body.result);
      }
    }
  }

  lemma TransactSessions(s: Sys, call: Call, t: Timing)
    requires Inv(s, t) && Legitimate(s, call)
    ensures HeldSessions(s.now, Transact(s, call).db, s.sent, s.sessions) && ReceiptInv(Transact(s, call).db, s.sessions)
  {
    forall sid | sid in s.sessions
      ensures var session := s.sessions[sid];
              && Held(s.now, Transact(s, call).db, s.sent, session.job, session.token, session.lease.lastOk)
              && (session.receipt.Some? ==>
                    Recorded(Transact(s, call).db, session.job, session.receipt.value.status, session.receipt.value.result))
    {
      var session := s.sessions[sid];
      SessionGrant(s, t, sid);
      TransactHeld(s, call, session.job, session.token, session.lease.lastOk);
      if session.receipt.Some? {
        TransactRecorded(s, call, session.job, session.receipt.value.status, session.receipt.value.result);
      }
    }
  }

  /** An append that takes effect adds the chunk its own session formed. */
  lemma AppendOwner(s: Sys, call: Call, t: Timing) returns (sid: nat)
    requires Inv(s, t) && Legitimate(s, call) && call.CallAppendLog?
    ensures sid in s.sessions && s.sessions[sid].job == call.id
    ensures call.seqno < |s.sessions[sid].lease.formed| && s.sessions[sid].lease.formed[call.seqno] == call.text
  {
    assert HasOwner(s.sessions, LogBody(call.id, call.lease, call.seqno, call.text));
    sid :| sid in s.sessions && MadeBy(s.sessions[sid], LogBody(call.id, call.lease, call.seqno, call.text));
  }

  lemma AppendKeepsPrefix(rows: LogRows, lease: LeaseState, seqno: nat, text: string)
    requires LogPrefix(rows, lease) && seqno < |lease.formed| && lease.formed[seqno] == text
    ensures LogPrefix(rows[seqno := text], lease)
  {
  }

  /** The row of a session's job was there before if it is there now. */
  lemma TransactOldRow(s: Sys, call: Call, t: Timing, sid: nat)
    requires Inv(s, t) && Legitimate(s, call) && sid in s.sessions
    ensures s.sessions[sid].job in Transact(s, call).db.jobs ==> s.sessions[sid].job in s.db.jobs
  {
    SessionGrant(s, t, sid);
    if s.sessions[sid].job !in s.db.jobs {
      NewRows(s.db, call, s.now, s.sessions[sid].job);
    }
  }

  lemma TransactLogRows(s: Sys, call: Call, t: Timing, sid: nat)
    requires Inv(s, t) && Legitimate(s, call) && sid in s.sessions
    requires LogPrefix(Log(s.db, s.sessions[sid].job), s.sessions[sid].lease)
    requires s.sessions[sid].job in Transact(s, call).db.jobs
    ensures LogPrefix(Log(Transact(s, call).db, s.sessions[sid].job), s.sessions[sid].lease)
  {
    var next, session := Transact(s, call), s.sessions[sid];
    LogStep(s.db, call, s.now, session.job);
    if Log(next.db, session.job) != Log(s.db, session.job) {
      var owner := AppendOwner(s, call, t);
      OneSession(s, t, sid, owner);
      AppendKeepsPrefix(Log(s.db, session.job), session.lease, call.seqno, call.text);
    }
  }

  lemma TransactLogOk(s: Sys, call: Call, t: Timing, sid: nat)
    requires Inv(s, t) && Legitimate(s, call) && sid in s.sessions
    ensures LogOk(Transact(s, call).db, s.sessions[sid])
  {
    assert LogOk(s.db, s.sessions[sid]);
    TransactOldRow(s, call, t, sid);
    if s.sessions[sid].job in Transact(s, call).db.jobs {
      TransactLogRows(s, call, t, sid);
    }
  }

  lemma TransactOrphans(s: Sys, call: Call, t: Timing, id: JobId)
    requires Inv(s, t) && Legitimate(s, call)
    requires id in Transact(s, call).db.jobs && Log(Transact(s, call).db, id) != map[]
    ensures HasSession(s.sessions, id)
  {
    LogStep(s.db, call, s.now, id);
    if Log(Transact(s, call).db, id) != Log(s.db, id) {
      var owner := AppendOwner(s, call, t);
    } else if id in s.db.jobs {
      assert Log(s.db, id) != map[];
    }
  }

  lemma TransactKeepsInv(s: Sys, call: Call, t: Timing)
    requires Inv(s, t) && Legitimate(s, call)
    ensures Inv(Transact(s, call), t)
  {
    TransactDb(s, call);
    TransactGrants(s, call, t);
    TransactReplies(s, call, t);
    TransactAcks(s, call, t);
    TransactSessions(s, call, t);
    forall sid | sid in s.sessions ensures LogOk(Transact(s, call).db, s.sessions[sid]) {
      TransactLogOk(s, call, t, sid);
    }
    forall id | id in Transact(s, call).db.jobs && Log(Transact(s, call).db, id) != map[] ensures HasSession(s.sessions, id) {
      TransactOrphans(s, call, t, id);
    }
  }

  // ---------------------------------------------------------------------------------------
  // Change 2: a reply is made
  // ---------------------------------------------------------------------------------------

  ghost predicate ReplyOk(s: Sys, rp: Reply) {
    && GrantOk(s.db, s.usedJobs, s.usedTokens, s.sent, rp)
    && ReplyHeld(s.now, s.db, s.sent, rp)
    && AckOk(s.db, s.sent, rp)
    && DoneOk(s.db, s.sent, rp)
    && (forall other {:trigger other in s.replies} :: other in s.replies ==> !SameGrant(rp, other))
  }

  lemma AddReplyKeepsInv(s: Sys, rp: Reply, t: Timing)
    requires Inv(s, t) && ReplyOk(s, rp)
    ensures Inv(s.(replies := s.replies + {rp}), t)
  {
    var next := s.(replies := s.replies + {rp});
    assert forall a, b :: SameGrant(a, b) ==> SameGrant(b, a);
    assert UniqueGrants(next.replies);
    forall sid | sid in s.sessions ensures SessionOk(s.sent, next.replies, s.claims, sid, s.sessions[sid]) {
      assert SessionOk(s.sent, s.replies, s.claims, sid, s.sessions[sid]);
    }
  }

  // ---------------------------------------------------------------------------------------
  // Change 3: a request is sent
  // ---------------------------------------------------------------------------------------

  lemma HeldSend(now: Time, db: Db, sent: map<nat, Request>, rid: nat, r: Request, job: JobId, token: string, base: Time)
    requires Held(now, db, sent, job, token, base) && rid !in sent
    ensures Held(now, db, sent[rid := r], job, token, base)
  {
    if FinishSent(sent, token) {
      var f :| f in sent && sent[f].body.FinishBody? && sent[f].body.token == token;
      assert sent[rid := r][f] == sent[f];
    }
  }

  lemma SendReplies(s: Sys, rid: nat, body: Body, t: Timing)
    requires Inv(s, t) && rid !in s.sent
    ensures var next := Send(s, rid, body);
            && GrantInv(s.db, s.usedJobs, s.usedTokens, next.sent, s.replies)
            && HeldReplies(s.now, s.db, next.sent, s.replies)
            && AckInv(s.db, next.sent, s.replies) && DoneInv(s.db, next.sent, s.replies)
  {
    var next := Send(s, rid, body);
    forall rp | rp in s.replies
      ensures GrantOk(s.db, s.usedJobs, s.usedTokens, next.sent, rp) && ReplyHeld(s.now, s.db, next.sent, rp)
      ensures AckOk(s.db, next.sent, rp) && DoneOk(s.db, next.sent, rp)
    {
      assert GrantOk(s.db, s.usedJobs, s.usedTokens, s.sent, rp) && ReplyHeld(s.now, s.db, s.sent, rp);
      assert AckOk(s.db, s.sent, rp) && DoneOk(s.db, s.sent, rp);
      if rp.answer.Granted? {
        HeldSend(s.now, s.db, s.sent, rid, Request(s.now, body), rp.answer.job, rp.answer.token, s.sent[rp.rid].sentAt);
      } else if rp.answer.Renewal? {
        var renewed := s.sent[rp.rid];
        HeldSend(s.now, s.db, s.sent, rid, Request(s.now, body), renewed.body.job, renewed.body.token, renewed.sentAt);
      }
    }
  }

  lemma SendKeepsInv(s: Sys, rid: nat, body: Body, t: Timing)
    requires Inv(s, t) && rid !in s.sent && HasOwner(s.sessions, body)
    ensures Inv(Send(s, rid, body), t)
  {
    var next := Send(s, rid, body);
    SendReplies(s, rid, body, t);
    forall sid | sid in s.sessions
      ensures SessionOk(next.sent, s.replies, s.claims, sid, s.sessions[sid])
      ensures Held(s.now, s.db, next.sent, s.sessions[sid].job, s.sessions[sid].token, s.sessions[sid].lease.lastOk)
    {
      var session := s.sessions[sid];
      assert SessionOk(s.sent, s.replies, s.claims, sid, session);
      HeldSend(s.now, s.db, s.sent, rid, Request(s.now, body), session.job, session.token, session.lease.lastOk);
    }
    forall r | r in next.sent ensures next.sent[r].sentAt <= s.now && HasOwner(s.sessions, next.sent[r].body) {
      if r != rid {
        assert s.sent[r].sentAt <= s.now;
      }
    }
  }

  // ---------------------------------------------------------------------------------------
  // Change 4: a session changes, or starts
  // ---------------------------------------------------------------------------------------

  /** A session keeps its identity, its formed chunks and its decided outcome. */
  ghost predicate Grows(before: Session, after: Session) {
    && after.job == before.job && after.token == before.token
    && before.lease.formed <= after.lease.formed && before.lease.sequence <= after.lease.sequence
    && (before.phase.Reporting? ==> after.phase == before.phase)
  }

  ghost predicate SessionFits(s: Sys, t: Timing, sid: nat, session: Session) {
    && SessionOk(s.sent, s.replies, s.claims, sid, session)
    && Held(s.now, s.db, s.sent, session.job, session.token, session.lease.lastOk)
    && OnTime(s.now, session, t)
    && LogOk(s.db, session)
    && (session.receipt.Some? ==>
          Recorded(s.db, session.job, session.receipt.value.status, session.receipt.value.result))
  }

  lemma GrowsKeepsOwner(sessions: map<nat, Session>, sid: nat, session: Session, body: Body)
    requires sid in sessions ==> Grows(sessions[sid], session)
    requires HasOwner(sessions, body)
    ensures HasOwner(sessions[sid := session], body)
  {
    if !body.ClaimBody? {
      var owner :| owner in sessions && MadeBy(sessions[owner], body);
      assert MadeBy(sessions[sid := session][owner], body);
    }
  }

  lemma GrowsKeepsSession(sessions: map<nat, Session>, sid: nat, session: Session, job: JobId)
    requires sid in sessions ==> Grows(sessions[sid], session)
    requires HasSession(sessions, job)
    ensures HasSession(sessions[sid := session], job)
  {
    var owner :| owner in sessions && sessions[owner].job == job;
    assert sessions[sid := session][owner].job == job;
  }

  lemma GrowsKeepsReader(sessions: map<nat, Session>, sid: nat, session: Session, r: Reader)
    requires ReaderOk(sessions, r)
    requires sid in sessions ==> Grows(sessions[sid], session)
    requires sid !in sessions ==> !HasSession(sessions, session.job)
    ensures ReaderOk(sessions[sid := session], r)
  {
    var next := sessions[sid := session];
    if r.printed != [] {
      GrowsKeepsSession(sessions, sid, session, r.job);
    }
    forall other | other in next && next[other].job == r.job ensures r.printed <= next[other].lease.formed {
      if other != sid || sid in sessions {
        assert r.printed <= sessions[other].lease.formed;
      }
    }
  }

  lemma PutKeepsOthers(s: Sys, sid: nat, session: Session, t: Timing)
    requires WorkerInv(s, t) && SessionFits(s, t, sid, session)
    requires sid in s.sessions ==> Grows(s.sessions[sid], session)
    requires sid !in s.sessions ==> !HasSession(s.sessions, session.job)
    ensures var next := s.sessions[sid := session];
            RequestInv(s.now, s.sent, next) && ReaderInv(next, s.readers)
            && forall id {:trigger Log(s.db, id)} :: id in s.db.jobs && Log(s.db, id) != map[] ==> HasSession(next, id)
  {
    var next := s.sessions[sid := session];
    forall rid | rid in s.sent ensures s.sent[rid].sentAt <= s.now && HasOwner(next, s.sent[rid].body) {
      assert s.sent[rid].sentAt <= s.now;
      GrowsKeepsOwner(s.sessions, sid, session, s.sent[rid].body);
    }
    forall id | id in s.db.jobs && Log(s.db, id) != map[] ensures HasSession(next, id) {
      GrowsKeepsSession(s.sessions, sid, session, id);
    }
    forall k | k in s.readers ensures ReaderOk(next, s.readers[k]) {
      GrowsKeepsReader(s.sessions, sid, session, s.readers[k]);
    }
  }

  lemma PutKeepsSessions(s: Sys, sid: nat, session: Session, t: Timing)
    requires WorkerInv(s, t) && SessionFits(s, t, sid, session)
    ensures var next := s.sessions[sid := session];
            SessionInv(s.sent, s.replies, s.claims, next) && HeldSessions(s.now, s.db, s.sent, next)
            && TimeInv(s.now, next, t) && ReceiptInv(s.db, next)
            && forall k {:trigger next[k]} :: k in next ==> LogOk(s.db, next[k])
  {
  }

  lemma PutSessionKeepsInv(s: Sys, sid: nat, session: Session, t: Timing)
    requires Inv(s, t) && SessionFits(s, t, sid, session)
    requires sid in s.sessions ==> Grows(s.sessions[sid], session)
    requires sid !in s.sessions ==> !HasSession(s.sessions, session.job)
    ensures Inv(Update(s, sid, session), t)
  {
    PutKeepsOthers(s, sid, session, t);
    PutKeepsSessions(s, sid, session, t);
  }

  // ---------------------------------------------------------------------------------------
  // Change 5: time passes
  // ---------------------------------------------------------------------------------------

  lemma HeldLater(now: Time, later: Time, db: Db, sent: map<nat, Request>, job: JobId, token: string, base: Time)
    requires Held(now, db, sent, job, token, base) && now <= later
    ensures Held(later, db, sent, job, token, base)
  {
  }

  lemma TickKeepsInv(s: Sys, later: Time, t: Timing)
    requires Inv(s, t) && s.now <= later && MayWait(s, later, t)
    ensures Inv(s.(now := later), t)
  {
    forall rp | rp in s.replies ensures ReplyHeld(later, s.db, s.sent, rp) {
      assert ReplyHeld(s.now, s.db, s.sent, rp);
    }
    forall sid | sid in s.sessions
      ensures Held(later, s.db, s.sent, s.sessions[sid].job, s.sessions[sid].token, s.sessions[sid].lease.lastOk)
      ensures OnTime(later, s.sessions[sid], t)
    {
      HeldLater(s.now, later, s.db, s.sent, s.sessions[sid].job, s.sessions[sid].token, s.sessions[sid].lease.lastOk);
      assert OnTime(s.now, s.sessions[sid], t);
    }
    forall rid | rid in s.sent ensures s.sent[rid].sentAt <= later && HasOwner(s.sessions, s.sent[rid].body) {
      assert s.sent[rid].sentAt <= s.now;
    }
  }
}
