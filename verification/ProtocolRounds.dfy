/** That the queue does its work: from any reachable state, what a worker, an operator or a log reader wants done can
    be done, and what is recorded then. */
module ProtocolRounds {
  import opened Common
  import opened StoreSpec
  import opened LeaseSpec
  import opened Protocol
  import opened ProtocolInv
  import opened StoreLaws
  import LogReader
  import ProtocolSafety
  import ProtocolTheorems
  import StoreProps

  lemma {:induction false} Fresh(used: set<nat>) returns (n: nat)
    ensures forall m :: m in used ==> m < n
  {
    if used == {} {
      n := 0;
    } else {
      var m :| m in used;
      var n0 := Fresh(used - {m});
      n := if n0 > m then n0 else m + 1;
      forall other | other in used ensures other < n {
        assert other == m || other in used - {m};
      }
    }
  }

  lemma UpdateTwice<T>(m: map<nat, T>, k: nat, a: T, b: T)
    ensures m[k := a][k := b] == m[k := b]
  {
  }

  // ---------------------------------------------------------------------------------------
  // A claim
  // ---------------------------------------------------------------------------------------

  /** No job works, and no waiting job of these projects is older than this one. */
  ghost predicate IsNext(db: Db, projects: seq<string>, id: JobId, now: Time) {
    && id in db.jobs && Waits(db.jobs[id], now) && db.jobs[id].spec.project in projects
    && (forall other :: other in db.jobs ==> !Works(db.jobs[other], now))
    && (forall other :: other in db.jobs && Waits(db.jobs[other], now) && db.jobs[other].spec.project in projects ==>
          db.jobs[id].created <= db.jobs[other].created)
  }

  lemma NextIsChosen(db: Db, projects: seq<string>, id: JobId, now: Time)
    requires IsNext(db, projects, id, now)
    ensures ClaimChoice(Reap(db, now), projects, Some(id))
  {
    forall other | other in db.jobs
      ensures Reap(db, now).jobs[other].Active() <==> Works(db.jobs[other], now)
      ensures Reap(db, now).jobs[other].status == Queued <==> Waits(db.jobs[other], now)
      ensures Reap(db, now).jobs[other].created == db.jobs[other].created
      ensures Reap(db, now).jobs[other].spec == db.jobs[other].spec
    {
      ReapOf(db, other, now);
    }
  }

  function Taken(job: Job, worker: string, token: string, now: Time): Job {
    job.(status := Running, worker := Some(worker), lease := Some(token), leaseUntil := Some(now + 60.0),
         started := Some(now))
  }

  /** A worker that asks for the next job gets it and executes it under a new lease of 60 s. */
  lemma ClaimRound(s: Sys, t: Timing, id: JobId, worker: string, projects: seq<string>, token: string)
      returns (sid: nat, next: Sys)
    requires Reachable(s, t) && Durations(t) && IsNext(s.db, projects, id, s.now)
    requires token !in s.usedTokens && token != ""
    ensures Reachable(next, t) && next.now == s.now && next.readers == s.readers && sid !in s.sessions
    ensures next.sessions == s.sessions[sid := Session(id, token, LeaseState(s.now, None, 0, None, []), s.now,
                                                       Executing, None, None)]
    ensures Sets(s.db, next.db, id, Taken(s.db.jobs[id], worker, token, s.now), s.now) && next.db.logs == s.db.logs
  {
    ProtocolSafety.ReachableInv(s, t);
    sid := Fresh(s.sent.Keys);
    assert sid in s.sessions ==> SessionOk(s.sent, s.replies, s.claims, sid, s.sessions[sid]);
    var asked := AskForJob(s, t, sid, worker, projects);
    var granted := GrantJob(asked, t, sid, worker, projects, token, id);
    next := TakeJob(granted, t, sid, id, token);
  }

  lemma AskForJob(s: Sys, t: Timing, rid: nat, worker: string, projects: seq<string>) returns (next: Sys)
    requires Reachable(s, t) && rid !in s.sent
    ensures Reachable(next, t)
    ensures next == s.(sent := s.sent[rid := Request(s.now, ClaimBody(worker, projects))], claims := s.claims + {rid})
  {
    next := Step(s, SendClaim(rid, worker, projects), t);
    ReachableStep(s, SendClaim(rid, worker, projects), t);
  }

  lemma GrantJob(s: Sys, t: Timing, rid: nat, worker: string, projects: seq<string>, token: string, id: JobId)
      returns (next: Sys)
    requires Reachable(s, t) && rid in s.sent && s.sent[rid].body == ClaimBody(worker, projects)
    requires token !in s.usedTokens && token != "" && IsNext(s.db, projects, id, s.now)
    ensures Reachable(next, t)
    ensures next == s.(db := next.db, replies := s.replies + {Reply(rid, Granted(id, token))},
                       usedTokens := s.usedTokens + {token})
    ensures Sets(s.db, next.db, id, Taken(s.db.jobs[id], worker, token, s.now), s.now) && next.db.logs == s.db.logs
  {
    NextIsChosen(s.db, projects, id, s.now);
    ClaimLaw(s.db, projects, Some(id), worker, token, s.now);
    next := Step(s, ServeClaim(rid, token, Some(id)), t);
    ReachableStep(s, ServeClaim(rid, token, Some(id)), t);
  }

  lemma TakeJob(s: Sys, t: Timing, rid: nat, id: JobId, token: string) returns (next: Sys)
    requires Reachable(s, t) && rid in s.claims && rid in s.sent && Reply(rid, Granted(id, token)) in s.replies
    requires s.sent[rid].sentAt == s.now && t.delivery >= 0.0
    ensures Reachable(next, t)
    ensures next == s.(claims := s.claims - {rid},
                       sessions := s.sessions[rid := Session(id, token, LeaseState(s.now, None, 0, None, []), s.now,
                                                             Executing, None, None)])
  {
    next := Step(s, AcceptClaim(rid, id, token), t);
    ReachableStep(s, AcceptClaim(rid, id, token), t);
  }

  // ---------------------------------------------------------------------------------------
  // A heartbeat
  // ---------------------------------------------------------------------------------------

  /** What a heartbeat, answered at once, makes of a worker's lease. */
  function Beaten(lease: LeaseState, held: bool, requested: bool, now: Time): LeaseState {
    LeaseState(if held then now else lease.lastOk,
               if lease.cancelledAt.None? && (requested || !held) then Some(now) else lease.cancelledAt,
               lease.sequence, lease.pending, lease.formed)
  }

  /** Who holds the lease has it renewed, for 60 s at the server and 40 s here, and hears of a requested cancel; any
      other worker's lease is cancelled. */
  lemma HeartbeatRound(s: Sys, t: Timing, sid: nat) returns (next: Sys)
    requires Reachable(s, t) && sid in s.sessions
    ensures Reachable(next, t) && next.now == s.now && next.readers == s.readers
    ensures var w := s.sessions[sid];
            var held := Holds(s.db, w.job, w.token, s.now);
            var requested := held && s.db.jobs[w.job].status == CancelRequested;
            && next.sessions == s.sessions[sid := w.(lease := Beaten(w.lease, held, requested, s.now), heartbeat := None)]
            && (if held then
                  Sets(s.db, next.db, w.job, s.db.jobs[w.job].(leaseUntil := Some(s.now + 60.0)), s.now)
                  && next.db.logs == s.db.logs
                else next.db == s.db)
  {
    var w := s.sessions[sid];
    var rid := Fresh(s.sent.Keys);
    var asked := AskToRenew(s, t, sid, rid);
    var renewed, answer := Renew(asked, t, rid, w.job, w.token);
    next := HearAnswer(renewed, t, sid, rid, answer);
    UpdateTwice(s.sessions, sid, renewed.sessions[sid], next.sessions[sid]);
  }

  lemma AskToRenew(s: Sys, t: Timing, sid: nat, rid: nat) returns (next: Sys)
    requires Reachable(s, t) && sid in s.sessions && rid !in s.sent
    ensures Reachable(next, t)
    ensures next == s.(sent := s.sent[rid := Request(s.now, HeartbeatBody(s.sessions[sid].job, s.sessions[sid].token))],
                       sessions := s.sessions[sid := s.sessions[sid].(heartbeat := Some(rid))])
  {
    var idle := Step(s, AbandonHeartbeat(sid), t);
    ReachableStep(s, AbandonHeartbeat(sid), t);
    next := Step(idle, SendHeartbeat(sid, rid), t);
    ReachableStep(idle, SendHeartbeat(sid, rid), t);
  }

  lemma Renew(s: Sys, t: Timing, rid: nat, id: JobId, token: string) returns (next: Sys, answer: Answer)
    requires Reachable(s, t) && rid in s.sent && s.sent[rid].body == HeartbeatBody(id, token)
    ensures Reachable(next, t)
    ensures next == s.(db := next.db, replies := s.replies + {Reply(rid, answer)})
    ensures if Holds(s.db, id, token, s.now) then
              && answer == Renewal(s.db.jobs[id].status == CancelRequested)
              && Sets(s.db, next.db, id, s.db.jobs[id].(leaseUntil := Some(s.now + 60.0)), s.now)
              && next.db.logs == s.db.logs
            else answer.Refused? && next.db == s.db
  {
    HeartbeatLaw(s.db, id, token, s.now);
    var o := Heartbeat(s.db, id, token, s.now);
    answer := if o.Commit? then Renewal(o.value) else Refused(o.error);
    next := Step(s, ServeHeartbeat(rid), t);
    ReachableStep(s, ServeHeartbeat(rid), t);
  }

  lemma HearAnswer(s: Sys, t: Timing, sid: nat, rid: nat, answer: Answer) returns (next: Sys)
    requires Reachable(s, t) && sid in s.sessions && s.sessions[sid].heartbeat == Some(rid) && rid in s.sent
    requires s.sent[rid].sentAt == s.now && Reply(rid, answer) in s.replies && (answer.Renewal? || answer.Refused?)
    ensures Reachable(next, t)
    ensures var w := s.sessions[sid];
            var lease := Beaten(w.lease, answer.Renewal?, answer.Renewal? && answer.cancel, s.now);
            next == s.(sessions := s.sessions[sid := w.(lease := lease, heartbeat := None)])
  {
    next := Step(s, HearHeartbeat(sid, answer), t);
    ReachableStep(s, HearHeartbeat(sid, answer), t);
  }

  /** A cancel that is requested while the worker holds the lease reaches it with its next heartbeat. */
  lemma CancelRound(s: Sys, t: Timing, sid: nat) returns (next: Sys)
    requires Reachable(s, t) && sid in s.sessions && Holds(s.db, s.sessions[sid].job, s.sessions[sid].token, s.now)
    ensures Reachable(next, t) && next.now == s.now && next.sessions.Keys == s.sessions.Keys
    ensures next.sessions[sid].lease.cancelledAt.Some?
    ensures s.sessions[sid].job in next.db.jobs && next.db.jobs[s.sessions[sid].job].status == CancelRequested
  {
    var id := s.sessions[sid].job;
    var asked := Step(s, CancelJob(id), t);
    ReachableStep(s, CancelJob(id), t);
    CancelLaw(s.db, id, s.now);
    next := HeartbeatRound(asked, t, sid);
  }

  // ---------------------------------------------------------------------------------------
  // A log chunk
  // ---------------------------------------------------------------------------------------

  /** The lease is held and not cancelled, and every chunk formed so far has been acknowledged. */
  ghost predicate Ready(s: Sys, sid: nat) {
    && sid in s.sessions && Holds(s.db, s.sessions[sid].job, s.sessions[sid].token, s.now)
    && s.sessions[sid].lease.pending.None? && s.sessions[sid].lease.cancelledAt.None?
  }

  /** A chunk that fits into the log is stored under the next number and acknowledged. */
  lemma LogRound(s: Sys, t: Timing, sid: nat, text: string) returns (next: Sys)
    requires Reachable(s, t) && Durations(t) && Ready(s, sid)
    requires s.db.jobs[s.sessions[sid].job].logBytes + Utf8(text) <= 16777216
    ensures Reachable(next, t) && next.now == s.now && next.readers == s.readers
    ensures var w := s.sessions[sid];
            && next.sessions == s.sessions[sid := w.(lease := w.lease.(sequence := w.lease.sequence + 1,
                                                                       formed := w.lease.formed + [text]))]
            && Sets(s.db, next.db, w.job,
                    s.db.jobs[w.job].(logBytes := s.db.jobs[w.job].logBytes + Utf8(text)), s.now)
            && Log(next.db, w.job) == Log(s.db, w.job)[w.lease.sequence := text]
  {
    var w := s.sessions[sid];
    NextNumberIsFree(s, t, sid);
    var rid := Fresh(s.sent.Keys);
    var asked := AskToLog(s, t, sid, rid, text);
    var taken := TakeLog(asked, t, rid, w.job, w.token, w.lease.sequence, text);
    next := HearTaken(taken, t, sid, rid);
    UpdateTwice(s.sessions, sid, taken.sessions[sid], next.sessions[sid]);
  }

  lemma NextNumberIsFree(s: Sys, t: Timing, sid: nat)
    requires Reachable(s, t) && Durations(t) && Ready(s, sid)
    ensures s.sessions[sid].lease.sequence !in Log(s.db, s.sessions[sid].job)
  {
    var n := ProtocolTheorems.LogDelivery(s, t, sid);
    ProtocolSafety.ReachableInv(s, t);
    assert LogOk(s.db, s.sessions[sid]);
  }

  lemma AskToLog(s: Sys, t: Timing, sid: nat, rid: nat, text: string) returns (next: Sys)
    requires Reachable(s, t) && sid in s.sessions && rid !in s.sent
    requires s.sessions[sid].lease.pending.None? && s.sessions[sid].lease.cancelledAt.None?
    ensures Reachable(next, t)
    ensures var w := s.sessions[sid];
            var lease := w.lease.(pending := Some(text), formed := w.lease.formed + [text]);
            next == s.(sent := s.sent[rid := Request(s.now, LogBody(w.job, w.token, w.lease.sequence, text))],
                       sessions := s.sessions[sid := w.(lease := lease)])
  {
    var formed := Step(s, FormChunk(sid, text), t);
    ReachableStep(s, FormChunk(sid, text), t);
    next := Step(formed, SendLog(sid, rid), t);
    ReachableStep(formed, SendLog(sid, rid), t);
  }

  lemma TakeLog(s: Sys, t: Timing, rid: nat, id: JobId, token: string, seqno: nat, text: string) returns (next: Sys)
    requires Reachable(s, t) && rid in s.sent && s.sent[rid].body == LogBody(id, token, seqno, text)
    requires Holds(s.db, id, token, s.now) && seqno !in Log(s.db, id)
    requires s.db.jobs[id].logBytes + Utf8(text) <= 16777216
    ensures Reachable(next, t)
    ensures next == s.(db := next.db, replies := s.replies + {Reply(rid, LogTaken)})
    ensures Sets(s.db, next.db, id, s.db.jobs[id].(logBytes := s.db.jobs[id].logBytes + Utf8(text)), s.now)
    ensures Log(next.db, id) == Log(s.db, id)[seqno := text]
  {
    AppendLogLaw(s.db, id, token, seqno, text, s.now);
    next := Step(s, ServeLog(rid), t);
    ReachableStep(s, ServeLog(rid), t);
  }

  lemma HearTaken(s: Sys, t: Timing, sid: nat, rid: nat) returns (next: Sys)
    requires Reachable(s, t) && sid in s.sessions && rid in s.sent && s.sent[rid].body.LogBody?
    requires s.sent[rid].body.token == s.sessions[sid].token && s.sent[rid].body.seqno == s.sessions[sid].lease.sequence
    requires s.sessions[sid].lease.pending.Some? && Reply(rid, LogTaken) in s.replies
    ensures Reachable(next, t)
    ensures var w := s.sessions[sid];
            var lease := w.lease.(pending := None, sequence := w.lease.sequence + 1);
            next == s.(sessions := s.sessions[sid := w.(lease := lease)])
  {
    next := Step(s, HearLog(sid, rid), t);
    ReachableStep(s, HearLog(sid, rid), t);
  }

  /** So are any number of chunks, one after another. */
  lemma {:induction false} LogRounds(s: Sys, t: Timing, sid: nat, chunks: seq<string>) returns (next: Sys)
    requires Reachable(s, t) && Durations(t) && Ready(s, sid)
    requires s.db.jobs[s.sessions[sid].job].logBytes + Utf8(Flatten(chunks)) <= 16777216
    ensures Reachable(next, t) && next.now == s.now && next.readers == s.readers && Ready(next, sid)
    ensures var w := s.sessions[sid];
            && next.sessions == s.sessions[sid := w.(lease := w.lease.(sequence := w.lease.sequence + |chunks|,
                                                                       formed := w.lease.formed + chunks))]
            && next.db.jobs[w.job]
               == s.db.jobs[w.job].(logBytes := s.db.jobs[w.job].logBytes + Utf8(Flatten(chunks)))
    decreases |chunks|
  {
    if chunks == [] {
      next := s;
      var w := s.sessions[sid];
      assert w.lease.formed + chunks == w.lease.formed;
      assert s.sessions[sid := w] == s.sessions;
    } else {
      var m := |chunks| - 1;
      var init, last := chunks[..m], chunks[m];
      assert chunks == init + [last];
      FlattenSnoc(init, last);
      Utf8Concat(Flatten(init), last);
      var before := LogRounds(s, t, sid, init);
      next := LogRound(before, t, sid, last);
      assert s.sessions[sid].lease.formed + chunks == (s.sessions[sid].lease.formed + init) + [last];
    }
  }

  // ---------------------------------------------------------------------------------------
  // The end of a job
  // ---------------------------------------------------------------------------------------

  lemma UploadRound(s: Sys, t: Timing, sid: nat, file: string, sha: Hash) returns (next: Sys)
    requires Reachable(s, t) && sid in s.sessions && s.sessions[sid].phase.Stopped?
    requires Holds(s.db, s.sessions[sid].job, s.sessions[sid].token, s.now)
    ensures Reachable(next, t) && next.now == s.now && next.readers == s.readers && next.sessions == s.sessions
    ensures var id := s.sessions[sid].job;
            && Sets(s.db, next.db, id, s.db.jobs[id].(artifact := Some(file), artifactSha := Some(sha)), s.now)
            && next.db.logs == s.db.logs
  {
    var rid := Fresh(s.sent.Keys);
    var s1 := Step(s, SendUpload(sid, rid, file, sha), t);
    ReachableStep(s, SendUpload(sid, rid, file, sha), t);
    PublishLaw(s.db, s.sessions[sid].job, s.sessions[sid].token, file, sha, s.now);
    next := Step(s1, ServeUpload(rid), t);
    ReachableStep(s1, ServeUpload(rid), t);
  }

  /** A stopped job's outcome is recorded, as `cancelled` if that was requested, and the receipt says the same. */
  lemma FinishRound(s: Sys, t: Timing, sid: nat, status: Status, result: string) returns (next: Sys)
    requires Reachable(s, t) && sid in s.sessions && s.sessions[sid].phase.Stopped?
    requires Holds(s.db, s.sessions[sid].job, s.sessions[sid].token, s.now)
    requires status == Succeeded || status == Failed || status == Status.Cancelled
    requires status == Succeeded ==> s.db.jobs[s.sessions[sid].job].artifact.Some?
    ensures Reachable(next, t) && next.now == s.now && next.readers == s.readers
    ensures var w := s.sessions[sid];
            var final := if s.db.jobs[w.job].status == Running then status else Status.Cancelled;
            && next.sessions == s.sessions[sid := w.(phase := Reporting(status, result),
                                                     receipt := Some(Receipt(final, result)))]
            && Sets(s.db, next.db, w.job,
                    s.db.jobs[w.job].(status := final, result := Some(result), finished := Some(s.now)), s.now)
            && next.db.logs == s.db.logs
  {
    var decided := DecideOutcome(s, t, sid, status, result);
    next := ReportRound(decided, t, sid, status, result);
    UpdateTwice(s.sessions, sid, decided.sessions[sid], next.sessions[sid]);
  }

  lemma DecideOutcome(s: Sys, t: Timing, sid: nat, status: Status, result: string) returns (next: Sys)
    requires Reachable(s, t) && sid in s.sessions && s.sessions[sid].phase.Stopped?
    ensures Reachable(next, t)
    ensures next == s.(sessions := s.sessions[sid := s.sessions[sid].(phase := Reporting(status, result))])
  {
    next := Step(s, Decide(sid, status, result), t);
    ReachableStep(s, Decide(sid, status, result), t);
  }

  lemma ReportRound(s: Sys, t: Timing, sid: nat, status: Status, result: string) returns (next: Sys)
    requires Reachable(s, t) && sid in s.sessions && s.sessions[sid].phase == Reporting(status, result)
    requires Holds(s.db, s.sessions[sid].job, s.sessions[sid].token, s.now)
    requires status == Succeeded || status == Failed || status == Status.Cancelled
    requires status == Succeeded ==> s.db.jobs[s.sessions[sid].job].artifact.Some?
    ensures Reachable(next, t) && next.now == s.now && next.readers == s.readers
    ensures var w := s.sessions[sid];
            var final := if s.db.jobs[w.job].status == Running then status else Status.Cancelled;
            && next.sessions == s.sessions[sid := w.(receipt := Some(Receipt(final, result)))]
            && Sets(s.db, next.db, w.job,
                    s.db.jobs[w.job].(status := final, result := Some(result), finished := Some(s.now)), s.now)
            && next.db.logs == s.db.logs
  {
    var w := s.sessions[sid];
    var rid := Fresh(s.sent.Keys);
    var asked := AskToFinish(s, t, sid, rid, status, result);
    var done := Complete(asked, t, rid, w.job, w.token, status, result);
    next := HearCompleted(done, t, sid, rid, if s.db.jobs[w.job].status == Running then status else Status.Cancelled);
  }

  lemma AskToFinish(s: Sys, t: Timing, sid: nat, rid: nat, status: Status, result: string) returns (next: Sys)
    requires Reachable(s, t) && sid in s.sessions && s.sessions[sid].phase == Reporting(status, result) && rid !in s.sent
    ensures Reachable(next, t)
    ensures var w := s.sessions[sid];
            next == s.(sent := s.sent[rid := Request(s.now, FinishBody(w.job, w.token, status, result))])
  {
    next := Step(s, SendFinish(sid, rid), t);
    ReachableStep(s, SendFinish(sid, rid), t);
  }

  lemma Complete(s: Sys, t: Timing, rid: nat, id: JobId, token: string, status: Status, result: string)
      returns (next: Sys)
    requires Reachable(s, t) && rid in s.sent && s.sent[rid].body == FinishBody(id, token, status, result)
    requires Holds(s.db, id, token, s.now)
    requires status == Succeeded || status == Failed || status == Status.Cancelled
    requires status == Succeeded ==> s.db.jobs[id].artifact.Some?
    ensures Reachable(next, t)
    ensures var final := if s.db.jobs[id].status == Running then status else Status.Cancelled;
            && next == s.(db := next.db, replies := s.replies + {Reply(rid, Completed(final))})
            && Sets(s.db, next.db, id,
                    s.db.jobs[id].(status := final, result := Some(result), finished := Some(s.now)), s.now)
            && next.db.logs == s.db.logs
  {
    HeldFinishLaw(s.db, id, token, status, result, s.now);
    next := Step(s, ServeFinish(rid), t);
    ReachableStep(s, ServeFinish(rid), t);
  }

  lemma HearCompleted(s: Sys, t: Timing, sid: nat, rid: nat, status: Status) returns (next: Sys)
    requires Reachable(s, t) && sid in s.sessions && rid in s.sent && s.sent[rid].body.FinishBody?
    requires s.sent[rid].body.token == s.sessions[sid].token
    requires s.sessions[sid].phase.Reporting? && Reply(rid, Completed(status)) in s.replies
    ensures Reachable(next, t)
    ensures var w := s.sessions[sid];
            next == s.(sessions := s.sessions[sid := w.(receipt := Some(Receipt(status, w.phase.result)))])
  {
    next := Step(s, HearFinish(sid, rid, status), t);
    ReachableStep(s, HearFinish(sid, rid, status), t);
  }

  lemma RefuseJob(s: Sys, t: Timing, rid: nat, id: JobId, token: string, result: string) returns (next: Sys)
    requires Reachable(s, t) && rid in s.claims && rid in s.sent && Reply(rid, Granted(id, token)) in s.replies
    requires s.sent[rid].sentAt == s.now
    ensures Reachable(next, t)
    ensures next == s.(claims := s.claims - {rid},
                       sessions := s.sessions[rid := Session(id, token, LeaseState(s.now, None, 0, None, []), s.now,
                                                             Reporting(Status.Cancelled, result), None, None)])
  {
    next := Step(s, DeclineClaim(rid, id, token, result), t);
    ReachableStep(s, DeclineClaim(rid, id, token, result), t);
  }

  /** A worker that gets the next job and does not start it has it recorded as cancelled. */
  lemma DeclineRound(s: Sys, t: Timing, id: JobId, worker: string, projects: seq<string>, token: string, result: string)
      returns (sid: nat, next: Sys)
    requires Reachable(s, t) && IsNext(s.db, projects, id, s.now) && token !in s.usedTokens && token != ""
    ensures Reachable(next, t) && next.now == s.now && sid in next.sessions && id in next.db.jobs
    ensures next.sessions[sid].job == id && next.sessions[sid].receipt == Some(Receipt(Status.Cancelled, result))
    ensures next.db.jobs[id] == Taken(s.db.jobs[id], worker, token, s.now).(status := Status.Cancelled,
                                                                            result := Some(result),
                                                                            finished := Some(s.now))
  {
    sid := Fresh(s.sent.Keys);
    var asked := AskForJob(s, t, sid, worker, projects);
    var granted := GrantJob(asked, t, sid, worker, projects, token, id);
    var refused := RefuseJob(granted, t, sid, id, token, result);
    next := ReportRound(refused, t, sid, Status.Cancelled, result);
  }

  // ---------------------------------------------------------------------------------------
  // A log reader
  // ---------------------------------------------------------------------------------------

  /** The rows are numbered from 0 without a gap, and there are `n`. */
  ghost predicate Numbered(rows: LogRows, n: nat) {
    forall k: nat {:trigger k in rows} :: k in rows <==> k < n
  }

  /** Up to a hundred of the `n` rows, from number `first`. */
  ghost predicate IsStretch(rows: LogRows, n: nat, first: nat, page: seq<LogRow>) {
    && |page| <= PAGE_LIMIT && first + |page| <= n && (|page| < PAGE_LIMIT ==> first + |page| == n)
    && (forall i {:trigger page[i]} :: 0 <= i < |page| ==>
          page[i].seqno == first + i && page[i].seqno in rows && page[i].text == rows[page[i].seqno])
  }

  lemma StretchFrom(rows: LogRows, n: nat, first: nat) returns (page: seq<LogRow>)
    requires Numbered(rows, n) && first <= n
    ensures IsStretch(rows, n, first, page)
  {
    var size := if n - first <= PAGE_LIMIT then n - first else PAGE_LIMIT;
    page := seq(size, i requires 0 <= i < size => LogRow(first + i, rows[first + i]));
  }

  lemma StretchCovers(rows: LogRows, n: nat, first: nat, page: seq<LogRow>, k: nat)
    requires Numbered(rows, n) && IsStretch(rows, n, first, page) && k in rows && k >= first
    ensures (exists i :: 0 <= i < |page| && page[i].seqno == k)
            || (|page| == PAGE_LIMIT && forall i :: 0 <= i < |page| ==> page[i].seqno < k)
  {
    var i := k - first;
    if i < |page| {
      assert page[i].seqno == k;
    }
  }

  lemma StretchIsPage(rows: LogRows, n: nat, first: nat, page: seq<LogRow>)
    requires Numbered(rows, n) && IsStretch(rows, n, first, page)
    ensures IsPage(rows, first - 1, page)
  {
    forall k | k in rows && k > first - 1
      ensures (exists i :: 0 <= i < |page| && page[i].seqno == k)
              || (|page| == PAGE_LIMIT && forall i :: 0 <= i < |page| ==> page[i].seqno < k)
    {
      StretchCovers(rows, n, first, page, k);
    }
  }

  /** A reader that goes on reading pages prints the log to its end, and then has printed all of it. */
  lemma {:induction false} ReadToEnd(s: Sys, t: Timing, k: nat, n: nat) returns (next: Sys, printed: seq<string>)
    requires Reachable(s, t) && k in s.readers && s.readers[k].job in s.db.jobs
    requires Numbered(Log(s.db, s.readers[k].job), n) && s.readers[k].after < n
    requires LogReader.Printed(Log(s.db, s.readers[k].job), s.readers[k].after, s.readers[k].printed)
    ensures Reachable(next, t)
    ensures next == s.(readers := s.readers[k := Reader(s.readers[k].job, n - 1, printed)])
    ensures LogReader.Printed(Log(s.db, s.readers[k].job), n - 1, printed)
    decreases n - s.readers[k].after
  {
    var r := s.readers[k];
    var rows, first := Log(s.db, r.job), r.after + 1;
    if first == n {
      next, printed := s, r.printed;
      assert s.readers[k := r] == s.readers;
    } else {
      var page := StretchFrom(rows, n, first);
      StretchIsPage(rows, n, first, page);
      LogReader.PrintPage(rows, r.after, r.printed, page);
      var read := ReadOnce(s, t, k, page);
      next, printed := ReadToEnd(read, t, k, n);
      UpdateTwice(s.readers, k, read.readers[k], next.readers[k]);
    }
  }

  lemma ReadOnce(s: Sys, t: Timing, k: nat, page: seq<LogRow>) returns (next: Sys)
    requires Reachable(s, t) && k in s.readers && s.readers[k].job in s.db.jobs && page != []
    requires IsPage(Log(s.db, s.readers[k].job), s.readers[k].after, page)
    ensures Reachable(next, t)
    ensures next == s.(readers := s.readers[k := Reader(s.readers[k].job, page[|page| - 1].seqno,
                                                         s.readers[k].printed + LogReader.Texts(page))])
  {
    next := Step(s, ReadPage(k, page), t);
    ReachableStep(s, ReadPage(k, page), t);
  }

  // ---------------------------------------------------------------------------------------
  // A whole job
  // ---------------------------------------------------------------------------------------

  /** From any reachable state the next job can be claimed, executed and completed with any outcome and any log of at
      most 16 MiB; the outcome is recorded and confirmed to the worker, and a reader prints exactly the log. */
  lemma JobCompletes(s: Sys, t: Timing, id: JobId, worker: string, token: string, chunks: seq<string>,
                     file: string, sha: Hash, status: Status, result: string)
      returns (sid: nat, k: nat, next: Sys)
    requires Reachable(s, t) && Durations(t)
    requires id in s.db.jobs && IsNext(s.db, [s.db.jobs[id].spec.project], id, s.now)
    requires token !in s.usedTokens && token != "" && Utf8(Flatten(chunks)) <= 16777216
    requires status == Succeeded || status == Failed || status == Status.Cancelled
    ensures Reachable(next, t) && next.now == s.now && id in next.db.jobs && sid in next.sessions && k in next.readers
    ensures next.db.jobs[id].status == status && next.db.jobs[id].result == Some(result)
    ensures next.db.jobs[id].finished == Some(s.now)
    ensures status == Succeeded ==> next.db.jobs[id].artifact == Some(file) && next.db.jobs[id].artifactSha == Some(sha)
    ensures next.sessions[sid].job == id && next.sessions[sid].receipt == Some(Receipt(status, result))
    ensures next.readers[k].job == id && next.readers[k].printed == chunks
  {
    var claimed;
    sid, claimed := ClaimRound(s, t, id, worker, [s.db.jobs[id].spec.project], token);
    NewLogIsEmpty(claimed, t, sid);
    var logged := LogRounds(claimed, t, sid, chunks);
    var ended := Step(logged, EndExecution(sid), t);
    ReachableStep(logged, EndExecution(sid), t);
    var uploaded := ended;
    if status == Succeeded {
      uploaded := UploadRound(ended, t, sid, file, sha);
    }
    var finished := FinishRound(uploaded, t, sid, status, result);
    k, next := ReadLog(finished, t, sid);
  }

  lemma NewLogIsEmpty(s: Sys, t: Timing, sid: nat)
    requires Reachable(s, t) && Durations(t) && sid in s.sessions && s.sessions[sid].job in s.db.jobs
    requires s.sessions[sid].lease.formed == []
    ensures s.db.jobs[s.sessions[sid].job].logBytes == 0
  {
    var n := ProtocolTheorems.LogDelivery(s, t, sid);
    ProtocolSafety.ReachableInv(s, t);
    var id := s.sessions[sid].job;
    assert s.db.jobs[id].logBytes == Sum(StoreProps.RowSizes(Log(s.db, id)));
    assert StoreProps.RowSizes(Log(s.db, id)) == map[];
  }

  /** A reader that starts now prints every chunk of a worker that has no chunk in flight. */
  lemma ReadLog(s: Sys, t: Timing, sid: nat) returns (k: nat, next: Sys)
    requires Reachable(s, t) && Durations(t) && sid in s.sessions && s.sessions[sid].job in s.db.jobs
    requires s.sessions[sid].lease.pending.None?
    ensures Reachable(next, t) && k !in s.readers
    ensures var w := s.sessions[sid];
            next == s.(readers := s.readers[k := Reader(w.job, |w.lease.formed| - 1, w.lease.formed)])
  {
    var w := s.sessions[sid];
    var n := ProtocolTheorems.LogDelivery(s, t, sid);
    ProtocolSafety.ReachableInv(s, t);
    assert LogOk(s.db, w);
    k := Fresh(s.readers.Keys);
    var start := OpenNew(s, t, k, w.job);
    var printed;
    next, printed := ReadToEnd(start, t, k, n);
    assert printed == w.lease.formed;
    UpdateTwice(s.readers, k, start.readers[k], next.readers[k]);
  }

  lemma OpenNew(s: Sys, t: Timing, k: nat, id: JobId) returns (next: Sys)
    requires Reachable(s, t) && k !in s.readers
    ensures Reachable(next, t) && next == s.(readers := s.readers[k := Reader(id, -1, [])])
  {
    next := Step(s, OpenReader(k, id), t);
    ReachableStep(s, OpenReader(k, id), t);
  }
}
