/** What the queue promises its users, for every reachable state of the whole system. */
module ProtocolTheorems {
  import opened Common
  import opened StoreSpec
  import opened LeaseSpec
  import opened Protocol
  import opened ProtocolDb
  import opened ProtocolInv
  import ProtocolSafety
  import StoreProps

  // ---------------------------------------------------------------------------------------
  // Timed mutual exclusion
  // ---------------------------------------------------------------------------------------

  /** Whoever executes a job holds the server's execution slot for it. */
  ghost predicate SlotSafe(s: Sys) {
    forall sid :: sid in s.sessions && s.sessions[sid].phase.Executing? ==>
      Live(s.db, s.sessions[sid].job, s.sessions[sid].token)
  }

  lemma NotFinishing(s: Sys, t: Timing, sid: nat)
    requires Inv(s, t) && sid in s.sessions && s.sessions[sid].phase.Executing?
    ensures !FinishSent(s.sent, s.sessions[sid].token)
  {
    if FinishSent(s.sent, s.sessions[sid].token) {
      var rid :| rid in s.sent && s.sent[rid].body.FinishBody? && s.sent[rid].body.token == s.sessions[sid].token;
      var owner := RequestOwner(s, t, rid);
      OneSession(s, t, owner, sid);
      assert false;
    }
  }

  lemma EndsBeforeLease(now: Time, session: Session, t: Timing)
    requires Durations(t) && Margin(t) && OnTime(now, session, t) && session.phase.Executing?
    ensures now < session.lease.lastOk + LEASE_SECONDS
  {
  }

  lemma SlotIsHeld(s: Sys, t: Timing)
    requires Reachable(s, t) && Durations(t) && Margin(t)
    ensures SlotSafe(s)
  {
    ProtocolSafety.ReachableInv(s, t);
    forall sid | sid in s.sessions && s.sessions[sid].phase.Executing?
      ensures Live(s.db, s.sessions[sid].job, s.sessions[sid].token)
    {
      var session := s.sessions[sid];
      assert OnTime(s.now, session, t);
      EndsBeforeLease(s.now, session, t);
      NotFinishing(s, t, sid);
      assert Held(s.now, s.db, s.sent, session.job, session.token, session.lease.lastOk);
    }
  }

  /** Of all the workers, whatever the network does, at most one is executing a job. */
  lemma MutualExclusion(s: Sys, t: Timing, a: nat, b: nat)
    requires Reachable(s, t) && Durations(t) && Margin(t)
    requires a in s.sessions && b in s.sessions && s.sessions[a].phase.Executing? && s.sessions[b].phase.Executing?
    ensures a == b
  {
    SlotIsHeld(s, t);
    ProtocolSafety.ReachableInv(s, t);
    assert Live(s.db, s.sessions[a].job, s.sessions[a].token) && Live(s.db, s.sessions[b].job, s.sessions[b].token);
    OneSession(s, t, a, b);
  }

  // ---------------------------------------------------------------------------------------
  // Log delivery and log readers
  // ---------------------------------------------------------------------------------------

  lemma PrefixLength(rows: LogRows, lease: LeaseState) returns (n: nat)
    requires StopAndWait(lease) && LogPrefix(rows, lease)
    ensures (n == lease.sequence || n == lease.sequence + 1) && n <= |lease.formed|
    ensures forall k: nat {:trigger k in rows} :: k in rows <==> k < n
    ensures forall k: nat {:trigger rows[k]} :: k < n ==> k in rows && rows[k] == lease.formed[k]
  {
    n := if lease.sequence in rows then lease.sequence + 1 else lease.sequence;
  }

  /**
   The server's log of a job is contiguous from 0, it is a prefix of the chunks its worker formed, and it is as
   long as the worker believes or one chunk longer.
   */
  lemma LogDelivery(s: Sys, t: Timing, sid: nat) returns (n: nat)
    requires Reachable(s, t) && Durations(t) && sid in s.sessions && s.sessions[sid].job in s.db.jobs
    ensures var lease, rows := s.sessions[sid].lease, Log(s.db, s.sessions[sid].job);
            && (n == lease.sequence || n == lease.sequence + 1) && n <= |lease.formed|
            && (forall k: nat {:trigger k in rows} :: k in rows <==> k < n)
            && (forall k: nat {:trigger rows[k]} :: k < n ==> k in rows && rows[k] == lease.formed[k])
  {
    ProtocolSafety.ReachableInv(s, t);
    assert LogOk(s.db, s.sessions[sid]);
    n := PrefixLength(Log(s.db, s.sessions[sid].job), s.sessions[sid].lease);
  }

  lemma OwnTextDoesNotCollide(db: Db, session: Session, body: Body, now: Time)
    requires body.LogBody? && MadeBy(session, body) && LogOk(db, session)
    ensures AppendLog(db, body.job, body.token, body.seqno, body.text, now) != Rollback(SequenceCollision)
  {
    assert Log(Reap(db, now), body.job) == Log(db, body.job);
  }

  /** However requests are delayed, lost or repeated, the server never sees two texts for one sequence number. */
  lemma NoSequenceCollision(s: Sys, t: Timing, rid: nat)
    requires Reachable(s, t) && Durations(t) && rid in s.sent && s.sent[rid].body.LogBody?
    ensures var body := s.sent[rid].body;
            AppendLog(s.db, body.job, body.token, body.seqno, body.text, s.now) != Rollback(SequenceCollision)
  {
    ProtocolSafety.ReachableInv(s, t);
    var owner := RequestOwner(s, t, rid);
    assert LogOk(s.db, s.sessions[owner]);
    OwnTextDoesNotCollide(s.db, s.sessions[owner], s.sent[rid].body, s.now);
  }

  /** What a reader has printed is exactly the first chunks its job's worker formed, none skipped or repeated. */
  lemma ReadersAreExact(s: Sys, t: Timing, k: nat, sid: nat)
    requires Reachable(s, t) && Durations(t)
    requires k in s.readers && sid in s.sessions && s.sessions[sid].job == s.readers[k].job
    ensures s.readers[k].after + 1 == |s.readers[k].printed| <= |s.sessions[sid].lease.formed|
    ensures s.readers[k].printed == s.sessions[sid].lease.formed[..s.readers[k].after + 1]
  {
    ProtocolSafety.ReachableInv(s, t);
    assert ReaderOk(s.sessions, s.readers[k]);
    assert s.readers[k].printed <= s.sessions[sid].lease.formed;
  }

  // ---------------------------------------------------------------------------------------
  // Completion
  // ---------------------------------------------------------------------------------------

  /** A local receipt marked delivered carries the outcome the server has recorded, for as long as the row exists. */
  lemma CompletionAgreement(s: Sys, t: Timing, sid: nat)
    requires Reachable(s, t) && Durations(t)
    requires sid in s.sessions && s.sessions[sid].receipt.Some? && s.sessions[sid].job in s.db.jobs
    ensures var row, receipt := s.db.jobs[s.sessions[sid].job], s.sessions[sid].receipt.value;
            && row.Terminal() && row.status == receipt.status && row.result == Some(receipt.result)
            && row.lease == Some(s.sessions[sid].token)
  {
    ProtocolSafety.ReachableInv(s, t);
    SessionGrant(s, t, sid);
    assert Recorded(s.db, s.sessions[sid].job, s.sessions[sid].receipt.value.status, s.sessions[sid].receipt.value.result);
  }

  /** And no later step of anyone changes that row: it can only be pruned. */
  lemma CompletedRowIsFrozen(s: Sys, a: Action, t: Timing, id: JobId)
    requires Reachable(s, t) && Durations(t) && Enabled(s, a, t) && id in s.db.jobs && s.db.jobs[id].Terminal()
    ensures id in Step(s, a, t).db.jobs ==>
              Step(s, a, t).db.jobs[id] == s.db.jobs[id] && Log(Step(s, a, t).db, id) == Log(s.db, id)
    ensures id !in Step(s, a, t).db.jobs ==> a.PruneJobs?
  {
    ProtocolSafety.ReachableInv(s, t);
    if Step(s, a, t).db != s.db {
      var call := ProtocolSafety.ActionCall(s, a, t);
      StoreProps.OnlyPruneDeletes(s.db, call, s.now, id);
      if id in Step(s, a, t).db.jobs {
        StoreProps.PerformMoves(s.db, call, s.now, id);
      }
    }
  }
}
