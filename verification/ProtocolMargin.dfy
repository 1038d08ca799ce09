/**
 The 20 s margin is exact: with claim delivery, watchdog polling and cancel observation that do not fit it,
 some run of the system has a worker executing a job whose slot the server has freed.
 */
module ProtocolMargin {
  import opened Common
  import opened StoreSpec
  import opened LeaseSpec
  import opened Protocol
  import opened ProtocolDb
  import opened ProtocolTheorems

  const SPEC := Spec("p", None, [])
  const CLAIM := Request(0.0, ClaimBody("w", ["p"]))
  const ROW := Leased(NewJob(SPEC, "k", 0.0), "w", "lease", 0.0)

  /** One job, granted at instant 0 to a claim that waits for its reply. */
  ghost predicate Waiting(s: Sys, now: Time) {
    && s.now == now && s.sessions == map[]
    && s.db == Db(map[0 := ROW], map[])
    && s.sent == map[0 := CLAIM] && s.claims == {0} && Reply(0, Granted(0, "lease")) in s.replies
  }

  lemma SubmitFirst(db: Db, now: Time)
    requires db == EMPTY_DB
    ensures Submit(db, SPEC, "k", 0, now) == Commit(Db(map[0 := NewJob(SPEC, "k", now)], map[]), 0)
  {
    var reaped := Reap(db, now);
    assert reaped == EMPTY_DB;
    assert !exists id :: HasKey(reaped, id, "k");
    assert QueuedIds(reaped) == {};
  }

  lemma ClaimFirst(db: Db, now: Time)
    requires db == Db(map[0 := NewJob(SPEC, "k", 0.0)], map[]) && now == 0.0
    ensures ClaimChoice(Reap(db, now), ["p"], Some(0))
    ensures Claim(db, Some(0), "w", "lease", now) == Db(map[0 := ROW], map[])
  {
    var reaped := Reap(db, now);
    assert reaped.jobs[0] == NewJob(SPEC, "k", 0.0);
    assert reaped.jobs.Keys == {0};
    assert Claim(db, Some(0), "w", "lease", now).jobs == map[0 := ROW];
  }

  lemma GrantRun(t: Timing) returns (s: Sys)
    ensures Reachable(s, t) && Waiting(s, 0.0)
  {
    ReachableInitial(t);
    var submit := SubmitJob(SPEC, "k", 0);
    SubmitFirst(INITIAL.db, 0.0);
    var s1 := Step(INITIAL, submit, t);
    ReachableStep(INITIAL, submit, t);
    var ask := SendClaim(0, "w", ["p"]);
    var s2 := Step(s1, ask, t);
    ReachableStep(s1, ask, t);
    ClaimFirst(s2.db, 0.0);
    var serve := ServeClaim(0, "lease", Some(0));
    s := Step(s2, serve, t);
    ReachableStep(s2, serve, t);
    assert s.sent == map[0 := CLAIM];
    assert s.claims == {0};
  }

  /** The job executes, not cancelled, with no renewal since the claim; the watchdog has just looked. */
  ghost predicate Running(s: Sys, now: Time) {
    && s.now == now && s.db == Db(map[0 := ROW], map[])
    && s.sessions == map[0 := Session(0, "lease", Opened(0.0), now, Executing, None, None)]
  }

  lemma AcceptRun(s: Sys, instant: Time, t: Timing) returns (next: Sys)
    requires Reachable(s, t) && Waiting(s, 0.0) && 0.0 <= instant <= t.delivery
    ensures Reachable(next, t) && Running(next, instant)
  {
    var wait := Tick(instant);
    var later := Step(s, wait, t);
    ReachableStep(s, wait, t);
    var accept := AcceptClaim(0, 0, "lease");
    next := Step(later, accept, t);
    ReachableStep(later, accept, t);
  }

  /** One turn of the watchdog that finds the lease in time. */
  lemma PollOnce(s: Sys, now: Time, instant: Time, t: Timing) returns (next: Sys)
    requires Reachable(s, t) && Running(s, now) && Durations(t)
    requires now <= instant <= now + t.poll && instant < RENEWAL_DEADLINE
    ensures Reachable(next, t) && Running(next, instant)
  {
    var wait := Tick(instant);
    var later := Step(s, wait, t);
    ReachableStep(s, wait, t);
    next := Step(later, Watch(0), t);
    ReachableStep(later, Watch(0), t);
  }

  /** Polling in time, the watchdog lets the execution go on to any instant before the local deadline. */
  lemma {:induction false} PollRun(s: Sys, now: Time, until: Time, t: Timing, k: nat) returns (next: Sys)
    requires Reachable(s, t) && Running(s, now) && Durations(t)
    requires now <= until < RENEWAL_DEADLINE && until - now <= k as Time * t.poll
    ensures Reachable(next, t) && Running(next, until)
    decreases k
  {
    if k == 0 {
      next := s;
    } else {
      var instant := if until - now < t.poll then until else now + t.poll;
      var polled := PollOnce(s, now, instant, t);
      assert (k - 1) as Time * t.poll == k as Time * t.poll - t.poll;
      if k == 1 {
        assert k as Time * t.poll == t.poll;
      }
      next := PollRun(polled, instant, until, t, k - 1);
    }
  }

  lemma Archimedes(length: Time, poll: Time) returns (k: nat)
    requires length >= 0.0 && poll > 0.0
    ensures length <= k as Time * poll
  {
    k := (length / poll).Floor + 1;
    assert k as Time > length / poll;
    assert k as Time * poll >= (length / poll) * poll;
  }

  /** The cancel event is set; the execution has not noticed yet. */
  ghost predicate Stopping(s: Sys, now: Time) {
    && s.now == now && s.db == Db(map[0 := ROW], map[])
    && 0 in s.sessions && s.sessions.Keys == {0} && s.sessions[0].phase.Executing?
    && s.sessions[0].job == 0 && s.sessions[0].token == "lease"
  }

  /** The watchdog's next look is late, and then the execution notices the cancel event late. */
  lemma LateRun(s: Sys, now: Time, t: Timing) returns (next: Sys)
    requires Reachable(s, t) && Running(s, now) && Durations(t)
    ensures Reachable(next, t) && Stopping(next, now + t.poll + t.observe)
  {
    var wait := Tick(now + t.poll);
    var s1 := Step(s, wait, t);
    ReachableStep(s, wait, t);
    var s2 := Step(s1, StopLocally(0), t);
    ReachableStep(s1, StopLocally(0), t);
    var linger := Tick(now + t.poll + t.observe);
    next := Step(s2, linger, t);
    ReachableStep(s2, linger, t);
  }

  /** Meanwhile the server reaps the job. */
  lemma ReapRun(s: Sys, now: Time, t: Timing) returns (next: Sys)
    requires Reachable(s, t) && Stopping(s, now) && now >= LEASE_SECONDS
    ensures Reachable(next, t) && !SlotSafe(next)
  {
    next := Step(s, ReapJobs, t);
    ReachableStep(s, ReapJobs, t);
    assert next.sessions[0].phase.Executing?;
    assert next.db.jobs[0] == ReapJob(ROW, now);
    assert !Live(next.db, next.sessions[0].job, next.sessions[0].token);
  }

  lemma UnsafeWithoutMargin(t: Timing) returns (s: Sys)
    requires Durations(t) && !Margin(t)
    ensures Reachable(s, t) && !SlotSafe(s)
  {
    var waiting := GrantRun(t);
    if t.delivery + t.poll + t.observe >= LEASE_SECONDS {
      var running := AcceptRun(waiting, t.delivery, t);
      var late := LateRun(running, t.delivery, t);
      s := ReapRun(late, t.delivery + t.poll + t.observe, t);
    } else {
      var until := LEASE_SECONDS - t.poll - t.observe;
      var running := AcceptRun(waiting, 0.0, t);
      var k := Archimedes(until, t.poll);
      var polled := PollRun(running, 0.0, until, t, k);
      var late := LateRun(polled, until, t);
      s := ReapRun(late, LEASE_SECONDS, t);
    }
  }

  /**
   The exact condition: every run is safe if and only if claim delivery and the two reactions fit the 60 s lease
   and the two reactions fit the 20 s between the local deadline and the lease.
   */
  lemma MarginIsExact(t: Timing)
    requires Durations(t)
    ensures (forall s :: Reachable(s, t) ==> SlotSafe(s)) <==> Margin(t)
  {
    if Margin(t) {
      forall s | Reachable(s, t) ensures SlotSafe(s) {
        SlotIsHeld(s, t);
      }
    } else {
      var s := UnsafeWithoutMargin(t);
    }
  }
}
