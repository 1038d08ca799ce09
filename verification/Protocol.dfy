/**
 The queue server, any number of workers and log readers, and the network between them, as one state machine.

 Every request ever sent stays in `sent` and may be served at any time, any number of times or never; every reply
 ever made stays in `replies` and may be heard late or never. So requests and replies may be delayed, lost,
 duplicated and reordered, and a request may be served long after its sender gave up. The server and the workers
 share one clock, `now`.
 */
module Protocol {
  import opened Common
  import opened StoreSpec
  import opened LeaseSpec

  /**
   What the workers' environment promises: a claim's reply is used at most `delivery` after the request was
   sent, the watchdog looks at the local deadline at least every `poll`, and an execution ends at most
   `observe` after the cancel event is set.
   */
  datatype Timing = Timing(delivery: Time, poll: Time, observe: Time)

  /** The 60 s lease outlasts claim delivery, and the 40 s local deadline, plus both reactions. */
  ghost predicate Margin(t: Timing) {
    && t.delivery + t.poll + t.observe < LEASE_SECONDS
    && RENEWAL_DEADLINE + t.poll + t.observe <= LEASE_SECONDS
  }

  ghost predicate Durations(t: Timing) {
    t.delivery >= 0.0 && t.poll > 0.0 && t.observe >= 0.0
  }

  datatype Body =
    | ClaimBody(worker: string, projects: seq<string>)
    | HeartbeatBody(job: JobId, token: string)
    | LogBody(job: JobId, token: string, seqno: nat, text: string)
    | UploadBody(job: JobId, token: string, file: string, sha: Hash)
    | FinishBody(job: JobId, token: string, status: Status, result: string)

  datatype Request = Request(sentAt: Time, body: Body)

  datatype Answer =
    | NoJob
    | Granted(job: JobId, token: string)
    | Renewal(cancel: bool)
    | LogTaken
    | Uploaded
    | Completed(status: Status)
    | Refused(error: Error)

  datatype Reply = Reply(rid: nat, answer: Answer)

  /** A started job executes, then has stopped, then reports one outcome until it is delivered. */
  datatype Phase = Executing | Stopped | Reporting(status: Status, result: string)

  /** The local receipt that is marked delivered. */
  datatype Receipt = Receipt(status: Status, result: string)

  /** One accepted claim at some worker. `checkedAt` is when its watchdog last looked at the deadline. */
  datatype Session = Session(job: JobId, token: string, lease: LeaseState, checkedAt: Time, phase: Phase,
                             heartbeat: Option<nat>, receipt: Option<Receipt>)

  /** `logs --follow`: the cursor, and the chunks printed so far. */
  datatype Reader = Reader(job: JobId, after: int, printed: seq<string>)

  datatype Sys = Sys(now: Time, db: Db, usedJobs: set<JobId>, usedTokens: set<string>,
                     sent: map<nat, Request>, replies: set<Reply>, claims: set<nat>,
                     sessions: map<nat, Session>, readers: map<nat, Reader>)

  const INITIAL := Sys(0.0, EMPTY_DB, {}, {}, map[], {}, {}, map[], map[])

  // ---------------------------------------------------------------------------------------
  // Steps
  // ---------------------------------------------------------------------------------------

  datatype Action =
    | Tick(later: Time)
    | SubmitJob(spec: Spec, key: string, newId: JobId)
    | CancelJob(id: JobId)
    | PruneJobs(days: int)
    | ReapJobs
    | SendClaim(rid: nat, worker: string, projects: seq<string>)
    | ServeClaim(rid: nat, token: string, pick: Option<JobId>)
    | AcceptClaim(rid: nat, job: JobId, token: string)
    | DeclineClaim(rid: nat, job: JobId, token: string, result: string)
    | SendHeartbeat(sid: nat, rid: nat)
    | ServeHeartbeat(rid: nat)
    | HearHeartbeat(sid: nat, answer: Answer)
    | AbandonHeartbeat(sid: nat)
    | Watch(sid: nat)
    | StopLocally(sid: nat)
    | FormChunk(sid: nat, text: string)
    | SendLog(sid: nat, rid: nat)
    | ServeLog(rid: nat)
    | HearLog(sid: nat, rid: nat)
    | EndExecution(sid: nat)
    | SendUpload(sid: nat, rid: nat, file: string, sha: Hash)
    | AdmitUpload(rid: nat)
    | ServeUpload(rid: nat)
    | Decide(sid: nat, status: Status, result: string)
    | SendFinish(sid: nat, rid: nat)
    | ServeFinish(rid: nat)
    | HearFinish(sid: nat, rid: nat, status: Status)
    | OpenReader(k: nat, job: JobId)
    | ReadPage(k: nat, page: seq<LogRow>)

  /** Time may pass only up to the next instant at which an environment promise falls due. */
  ghost predicate MayWait(s: Sys, later: Time, t: Timing) {
    forall sid :: sid in s.sessions && s.sessions[sid].phase.Executing? ==>
      var lease := s.sessions[sid].lease;
      if lease.cancelledAt.Some? then later <= lease.cancelledAt.value + t.observe
      else later <= s.sessions[sid].checkedAt + t.poll
  }

  ghost predicate Enabled(s: Sys, a: Action, t: Timing) {
    match a
    case Tick(later) => s.now <= later && MayWait(s, later, t)
    case SubmitJob(_, _, newId) => newId !in s.usedJobs
    case SendClaim(rid, _, _) => rid !in s.sent
    case ServeClaim(rid, token, pick) =>
      && rid in s.sent && s.sent[rid].body.ClaimBody?
      && token !in s.usedTokens && token != ""
      && ClaimChoice(Reap(s.db, s.now), s.sent[rid].body.projects, pick)
    case AcceptClaim(rid, job, token) =>
      rid in s.claims && rid in s.sent && Reply(rid, Granted(job, token)) in s.replies && s.now <= s.sent[rid].sentAt + t.delivery
    case DeclineClaim(rid, job, token, _) =>
      rid in s.claims && rid in s.sent && Reply(rid, Granted(job, token)) in s.replies
    case SendHeartbeat(sid, rid) => sid in s.sessions && s.sessions[sid].heartbeat.None? && rid !in s.sent
    case ServeHeartbeat(rid) => rid in s.sent && s.sent[rid].body.HeartbeatBody?
    case HearHeartbeat(sid, answer) =>
      && sid in s.sessions && s.sessions[sid].heartbeat.Some? && s.sessions[sid].heartbeat.value in s.sent
      && Reply(s.sessions[sid].heartbeat.value, answer) in s.replies && (answer.Renewal? || answer.Refused?)
    case AbandonHeartbeat(sid) => sid in s.sessions
    case Watch(sid) => sid in s.sessions
    case StopLocally(sid) => sid in s.sessions
    case FormChunk(sid, _) => sid in s.sessions && s.sessions[sid].lease.pending.None?
    case SendLog(sid, rid) =>
      && sid in s.sessions && rid !in s.sent
      && s.sessions[sid].lease.pending.Some? && s.sessions[sid].lease.cancelledAt.None?
    case ServeLog(rid) => rid in s.sent && s.sent[rid].body.LogBody?
    case HearLog(sid, rid) =>
      && sid in s.sessions && rid in s.sent && s.sent[rid].body.LogBody?
      && s.sent[rid].body.token == s.sessions[sid].token && s.sent[rid].body.seqno == s.sessions[sid].lease.sequence
      && s.sessions[sid].lease.pending.Some? && Reply(rid, LogTaken) in s.replies
    case EndExecution(sid) => sid in s.sessions && s.sessions[sid].phase.Executing?
    case SendUpload(sid, rid, _, _) => sid in s.sessions && s.sessions[sid].phase.Stopped? && rid !in s.sent
    case AdmitUpload(rid) => rid in s.sent && s.sent[rid].body.UploadBody?
    case ServeUpload(rid) => rid in s.sent && s.sent[rid].body.UploadBody?
    case Decide(sid, _, _) => sid in s.sessions && s.sessions[sid].phase.Stopped?
    case SendFinish(sid, rid) => sid in s.sessions && s.sessions[sid].phase.Reporting? && rid !in s.sent
    case ServeFinish(rid) => rid in s.sent && s.sent[rid].body.FinishBody?
    case HearFinish(sid, rid, status) =>
      && sid in s.sessions && rid in s.sent && s.sent[rid].body.FinishBody?
      && s.sent[rid].body.token == s.sessions[sid].token
      && s.sessions[sid].phase.Reporting? && Reply(rid, Completed(status)) in s.replies
    case OpenReader(k, _) => k !in s.readers
    case ReadPage(k, page) =>
      && k in s.readers && s.readers[k].job in s.db.jobs
      && IsPage(Log(s.db, s.readers[k].job), s.readers[k].after, page)
    case _ => true
  }

  function Update(s: Sys, sid: nat, session: Session): Sys {
    s.(sessions := s.sessions[sid := session])
  }

  function Send(s: Sys, rid: nat, body: Body): Sys {
    s.(sent := s.sent[rid := Request(s.now, body)])
  }

  function OnLease(s: Sys, sid: nat, lease: LeaseState): Sys
    requires sid in s.sessions
  {
    Update(s, sid, s.sessions[sid].(lease := lease))
  }

  function NewSession(s: Sys, rid: nat, job: JobId, token: string, phase: Phase): Sys
    requires rid in s.sent
  {
    s.(claims := s.claims - {rid},
       sessions := s.sessions[rid := Session(job, token, Opened(s.sent[rid].sentAt), s.now, phase, None, None)])
  }

  /** The server handles one request: what the transaction does, and what the reply says. */
  function Served(s: Sys, rid: nat, db: Db, answer: Answer): Sys {
    s.(db := db, replies := s.replies + {Reply(rid, answer)})
  }

  function AnswerTo<T>(outcome: Outcome<T>, success: T -> Answer): Answer {
    match outcome
    case Commit(_, value) => success(value)
    case Rollback(e) => Refused(e)
  }

  function GrantClaim(s: Sys, rid: nat, token: string, pick: Option<JobId>): Sys
    requires rid in s.sent && s.sent[rid].body.ClaimBody? && (pick.Some? ==> pick.value in s.db.jobs)
  {
    var db := Claim(s.db, pick, s.sent[rid].body.worker, token, s.now);
    match pick
    case None => Served(s, rid, db, NoJob)
    case Some(id) => Served(s, rid, db, Granted(id, token)).(usedTokens := s.usedTokens + {token})
  }

  function PrintPage(r: Reader, page: seq<LogRow>): Reader {
    if page == [] then r
    else r.(after := page[|page| - 1].seqno, printed := r.printed + seq(|page|, i requires 0 <= i < |page| => page[i].text))
  }

  function ServeHeartbeatAt(s: Sys, rid: nat, body: Body): Sys
    requires body.HeartbeatBody?
  {
    var outcome := Heartbeat(s.db, body.job, body.token, s.now);
    Served(s, rid, outcome.After(s.db), AnswerTo(outcome, cancel => Renewal(cancel)))
  }

  function ServeLogAt(s: Sys, rid: nat, body: Body): Sys
    requires body.LogBody?
  {
    var outcome := AppendLog(s.db, body.job, body.token, body.seqno, body.text, s.now);
    Served(s, rid, outcome.After(s.db), AnswerTo(outcome, _ => LogTaken))
  }

  function ServeUploadAt(s: Sys, rid: nat, body: Body): Sys
    requires body.UploadBody?
  {
    var outcome := PublishArtifact(s.db, body.job, body.token, body.file, body.sha, s.now);
    Served(s, rid, outcome.After(s.db), AnswerTo(outcome, _ => Uploaded))
  }

  function ServeFinishAt(s: Sys, rid: nat, body: Body): Sys
    requires body.FinishBody?
  {
    var outcome := Finish(s.db, body.job, body.token, body.status, body.result, s.now);
    Served(s, rid, outcome.After(s.db), AnswerTo(outcome, (job: Job) => Completed(job.status)))
  }

  function HeardHeartbeat(s: Sys, sid: nat, answer: Answer): Sys
    requires sid in s.sessions && s.sessions[sid].heartbeat.Some? && s.sessions[sid].heartbeat.value in s.sent
  {
    var session := s.sessions[sid];
    var lease := if answer.Renewal?
                 then Renewed(session.lease, s.sent[session.heartbeat.value].sentAt, answer.cancel, s.now)
                 else LeaseSpec.Cancelled(session.lease, s.now);
    Update(s, sid, session.(lease := lease, heartbeat := None))
  }

  function HeardFinish(s: Sys, sid: nat, status: Status): Sys
    requires sid in s.sessions && s.sessions[sid].phase.Reporting?
  {
    var session := s.sessions[sid];
    Update(s, sid, session.(receipt := Some(Receipt(status, session.phase.result))))
  }

  function Watched(session: Session, now: Time): Session {
    session.(lease := DeadlineChecked(session.lease, now), checkedAt := now)
  }

  ghost function Step(s: Sys, a: Action, t: Timing): Sys
    requires Enabled(s, a, t)
  {
    match a
    case Tick(later) => s.(now := later)
    case SubmitJob(spec, key, newId) =>
      s.(db := Submit(s.db, spec, key, newId, s.now).After(s.db), usedJobs := s.usedJobs + {newId})
    case CancelJob(id) => s.(db := Cancel(s.db, id, s.now).After(s.db))
    case PruneJobs(days) => s.(db := Prune(s.db, days, s.now))
    case ReapJobs => s.(db := Reap(s.db, s.now))
    case SendClaim(rid, worker, projects) => Send(s, rid, ClaimBody(worker, projects)).(claims := s.claims + {rid})
    case ServeClaim(rid, token, pick) => GrantClaim(s, rid, token, pick)
    case AcceptClaim(rid, job, token) => NewSession(s, rid, job, token, Executing)
    case DeclineClaim(rid, job, token, result) => NewSession(s, rid, job, token, Reporting(Status.Cancelled, result))
    case SendHeartbeat(sid, rid) =>
      var session := s.sessions[sid];
      Update(Send(s, rid, HeartbeatBody(session.job, session.token)), sid, session.(heartbeat := Some(rid)))
    case ServeHeartbeat(rid) => ServeHeartbeatAt(s, rid, s.sent[rid].body)
    case HearHeartbeat(sid, answer) => HeardHeartbeat(s, sid, answer)
    case AbandonHeartbeat(sid) => Update(s, sid, s.sessions[sid].(heartbeat := None))
    case Watch(sid) => Update(s, sid, Watched(s.sessions[sid], s.now))
    case StopLocally(sid) => OnLease(s, sid, LeaseSpec.Cancelled(s.sessions[sid].lease, s.now))
    case FormChunk(sid, text) => OnLease(s, sid, Formed(s.sessions[sid].lease, text))
    case SendLog(sid, rid) =>
      var session := s.sessions[sid];
      Send(s, rid, LogBody(session.job, session.token, session.lease.sequence, session.lease.pending.value))
    case ServeLog(rid) => ServeLogAt(s, rid, s.sent[rid].body)
    case HearLog(sid, rid) => OnLease(s, sid, Delivered(s.sessions[sid].lease))
    case EndExecution(sid) => Update(s, sid, s.sessions[sid].(phase := Stopped))
    case SendUpload(sid, rid, file, sha) =>
      Send(s, rid, UploadBody(s.sessions[sid].job, s.sessions[sid].token, file, sha))
    case AdmitUpload(rid) =>
      s.(db := Heartbeat(s.db, s.sent[rid].body.job, s.sent[rid].body.token, s.now).After(s.db))
    case ServeUpload(rid) => ServeUploadAt(s, rid, s.sent[rid].body)
    case Decide(sid, status, result) => Update(s, sid, s.sessions[sid].(phase := Reporting(status, result)))
    case SendFinish(sid, rid) =>
      var session := s.sessions[sid];
      Send(s, rid, FinishBody(session.job, session.token, session.phase.status, session.phase.result))
    case ServeFinish(rid) => ServeFinishAt(s, rid, s.sent[rid].body)
    case HearFinish(sid, rid, status) => HeardFinish(s, sid, status)
    case OpenReader(k, job) => s.(readers := s.readers[k := Reader(job, -1, [])])
    case ReadPage(k, page) => s.(readers := s.readers[k := PrintPage(s.readers[k], page)])
  }

  /** `states` is a run of the system that takes `actions`. */
  ghost predicate IsSystemRun(states: seq<Sys>, actions: seq<Action>, t: Timing) {
    && |states| == |actions| + 1
    && states[0] == INITIAL
    && (forall i :: 0 <= i < |actions| ==>
          Enabled(states[i], actions[i], t) && states[i + 1] == Step(states[i], actions[i], t))
  }

  ghost predicate Reachable(s: Sys, t: Timing) {
    exists states, actions :: IsSystemRun(states, actions, t) && states[|states| - 1] == s
  }

  lemma ReachableInitial(t: Timing)
    ensures Reachable(INITIAL, t)
  {
    assert IsSystemRun([INITIAL], [], t);
    assert [INITIAL][|[INITIAL]| - 1] == INITIAL;
  }

  lemma ReachableStep(s: Sys, a: Action, t: Timing)
    requires Reachable(s, t) && Enabled(s, a, t)
    ensures Reachable(Step(s, a, t), t)
  {
    var states, actions :| IsSystemRun(states, actions, t) && states[|states| - 1] == s;
    var longer, more := states + [Step(s, a, t)], actions + [a];
    forall i | 0 <= i < |more| ensures Enabled(longer[i], more[i], t) && longer[i + 1] == Step(longer[i], more[i], t) {
      assert longer[i] == states[i];
      if i < |actions| {
        assert Enabled(states[i], actions[i], t);
      }
    }
    assert IsSystemRun(longer, more, t);
    assert longer[|longer| - 1] == Step(s, a, t);
  }
}
