/** `worker.py`: the crash marker ACTIVE.json, over any number of crashes and restarts on one state directory. */
module Marker {
  type Pid = nat

  /** What `handle` would catch if the job ended now. */
  datatype Raised = Nothing | CleanupError | OtherError

  /** `open` are the process groups not closed yet; after a close that raised, the others may be left so. */
  datatype Phase =
    | Down
    | Starting
    | Idle(stopping: bool)
    | Running(raised: Raised, open: set<Pid>, closeRaised: bool)
    | Finishing(cleanupOk: bool)

  /** `unconfirmed` are all process groups ever started here whose end nobody has confirmed. */
  datatype Site = Site(phase: Phase, marker: bool, unconfirmed: set<Pid>, used: set<Pid>)

  const FRESH := Site(Down, false, {}, {})

  /** `closeMayFail`: closing an output file or a pipe can raise, as it does when a full disk keeps a buffer from
      being flushed. */
  datatype World = World(closeMayFail: bool)

  datatype Action =
    | Boot | CheckMarker | StartJob | Spawn(pid: Pid) | BodyRaises
    | Close(pid: Pid, confirmed: bool, filesClose: bool) | FileRaises
    | EndRun | LeaveHandle | Quit | Crash | Inspect

  predicate Enabled(s: Site, a: Action, w: World) {
    match a
    case Boot => s.phase.Down?
    case CheckMarker => s.phase.Starting?
    // The marker is created exclusively.
    case StartJob => s.phase == Idle(false) && !s.marker
    case Spawn(pid) => s.phase.Running? && s.phase.raised == Nothing && pid !in s.used
    case BodyRaises => s.phase.Running? && s.phase.raised == Nothing
    case Close(pid, _, filesClose) => s.phase.Running? && pid in s.phase.open && (filesClose || w.closeMayFail)
    case FileRaises => s.phase.Running? && w.closeMayFail
    case EndRun => s.phase.Running? && (s.phase.open == {} || s.phase.closeRaised)
    case LeaveHandle => s.phase.Finishing?
    case Quit => s.phase.Idle?
    case Crash => !s.phase.Down?
    case Inspect => s.phase.Down?
  }

  /** `Process.close`: unconfirmed cleanup raises, but an error while the streams are closed replaces what was raised. */
  function AfterClose(raised: Raised, confirmed: bool, filesClose: bool): Raised {
    if !filesClose then OtherError
    else if !confirmed then CleanupError
    else raised
  }

  function Step(s: Site, a: Action, w: World): Site
    requires Enabled(s, a, w)
  {
    match a
    case Boot => s.(phase := Starting)
    case CheckMarker => s.(phase := if s.marker then Down else Idle(false))
    case StartJob => s.(phase := Running(Nothing, {}, false), marker := true)
    case Spawn(pid) =>
      s.(phase := s.phase.(open := s.phase.open + {pid}), unconfirmed := s.unconfirmed + {pid}, used := s.used + {pid})
    case BodyRaises => s.(phase := s.phase.(raised := OtherError))
    case Close(pid, confirmed, filesClose) =>
      s.(phase := Running(AfterClose(s.phase.raised, confirmed, filesClose), s.phase.open - {pid},
                          s.phase.closeRaised || !confirmed || !filesClose),
         unconfirmed := if confirmed then s.unconfirmed - {pid} else s.unconfirmed)
    case FileRaises => s.(phase := s.phase.(raised := OtherError))
    case EndRun => s.(phase := Finishing(s.phase.raised != CleanupError))
    case LeaveHandle =>
      s.(phase := Idle(!s.phase.cleanupOk), marker := s.marker && !s.phase.cleanupOk)
    case Quit => s.(phase := Down)
    case Crash => s.(phase := Down)
    // The operator stops what is left and then removes the marker.
    case Inspect => s.(marker := false, unconfirmed := {})
  }

  /** As long as some process may be left, the marker says so. */
  predicate Safe(s: Site) {
    s.unconfirmed != {} ==> s.marker
  }

  ghost predicate IsRun(sites: seq<Site>, actions: seq<Action>, w: World) {
    && |sites| == |actions| + 1
    && sites[0] == FRESH
    && forall i :: 0 <= i < |actions| ==> Enabled(sites[i], actions[i], w) && sites[i + 1] == Step(sites[i], actions[i], w)
  }

  ghost predicate Reachable(s: Site, w: World) {
    exists sites, actions :: IsRun(sites, actions, w) && sites[|sites| - 1] == s
  }

  predicate Inv(s: Site) {
    && Safe(s)
    && match s.phase
       case Running(raised, open, closeRaised) =>
         && s.marker && open <= s.unconfirmed
         && (closeRaised <==> raised == CleanupError)
         && (raised != CleanupError ==> s.unconfirmed == open)
       case Finishing(cleanupOk) => s.marker && (cleanupOk ==> s.unconfirmed == {})
       case _ => true
  }

  lemma StepKeepsInv(s: Site, a: Action, w: World)
    requires !w.closeMayFail && Inv(s) && Enabled(s, a, w)
    ensures Inv(Step(s, a, w))
  {
  }

  lemma {:induction false} RunKeepsInv(sites: seq<Site>, actions: seq<Action>, w: World, i: nat)
    requires !w.closeMayFail && IsRun(sites, actions, w) && i < |sites|
    ensures Inv(sites[i])
    decreases i
  {
    if i > 0 {
      RunKeepsInv(sites, actions, w, i - 1);
      StepKeepsInv(sites[i - 1], actions[i - 1], w);
    }
  }

  /** Over every run with crashes and restarts: when a job starts, nothing of an earlier job can be left, and only an
      inspection or the confirmed end of the running job ever removes a marker. */
  lemma JobsStartClean(sites: seq<Site>, actions: seq<Action>, w: World, i: nat)
    requires !w.closeMayFail && IsRun(sites, actions, w) && i < |actions|
    ensures actions[i] == StartJob ==> sites[i].unconfirmed == {}
    ensures sites[i].marker && !sites[i + 1].marker ==>
              actions[i] == Inspect || (actions[i] == LeaveHandle && sites[i].unconfirmed == {})
  {
    RunKeepsInv(sites, actions, w, i);
    assert Enabled(sites[i], actions[i], w);
  }

  lemma ReachableStep(s: Site, a: Action, w: World)
    requires Reachable(s, w) && Enabled(s, a, w)
    ensures Reachable(Step(s, a, w), w)
  {
    var sites, actions :| IsRun(sites, actions, w) && sites[|sites| - 1] == s;
    var longer, more := sites + [Step(s, a, w)], actions + [a];
    forall i | 0 <= i < |more| ensures Enabled(longer[i], more[i], w) && longer[i + 1] == Step(longer[i], more[i], w) {
      assert longer[i] == sites[i];
      if i < |actions| {
        assert Enabled(sites[i], actions[i], w);
      }
    }
    assert IsRun(longer, more, w);
    assert longer[|longer| - 1] == Step(s, a, w);
  }

  // Working with the marker, also if closing can fail.

  lemma {:induction false} ReadyHasNoMarker(sites: seq<Site>, actions: seq<Action>, w: World, i: nat)
    requires IsRun(sites, actions, w) && i < |sites|
    ensures sites[i].phase == Idle(false) ==> !sites[i].marker
  {
    if i > 0 {
      var m := i - 1;
      ReadyHasNoMarker(sites, actions, w, m);
      assert sites[i] == Step(sites[m], actions[m], w);
    }
  }

  /** While the marker of an earlier job is there, no worker is ready for a job: one that starts stops again, and the one
      that could not confirm a cleanup takes no other job. */
  lemma MarkerHoldsJobsBack(s: Site, w: World)
    requires Reachable(s, w) && s.marker
    ensures s.phase != Idle(false)
  {
    var sites, actions :| IsRun(sites, actions, w) && sites[|sites| - 1] == s;
    ReadyHasNoMarker(sites, actions, w, |sites| - 1);
  }

  lemma StartAgain(s: Site, w: World) returns (next: Site)
    requires Reachable(s, w) && s.phase.Down?
    ensures Reachable(next, w) && next == s.(phase := if s.marker then Down else Idle(false))
  {
    var booted := Step(s, Boot, w);
    ReachableStep(s, Boot, w);
    next := Step(booted, CheckMarker, w);
    ReachableStep(booted, CheckMarker, w);
  }

  /** After an inspection a worker gets ready again, whatever was left. */
  lemma InspectionHelps(s: Site, w: World) returns (next: Site)
    requires Reachable(s, w)
    ensures Reachable(next, w) && next == Site(Idle(false), false, {}, s.used) && Enabled(next, StartJob, w)
  {
    var down := s;
    if !s.phase.Down? {
      down := Step(s, Crash, w);
      ReachableStep(s, Crash, w);
    }
    var inspected := Step(down, Inspect, w);
    ReachableStep(down, Inspect, w);
    next := StartAgain(inspected, w);
  }

  /** A job in which something was raised starts no more processes. */
  lemma {:induction false} NothingSpawnsAfter(sites: seq<Site>, actions: seq<Action>, w: World, j: nat, n: nat)
    requires IsRun(sites, actions, w) && j < n < |sites| && Raises(actions[j])
    requires forall i :: j < i < n ==> IsJobEvent(actions[i])
    ensures sites[n].phase.Running? && sites[n].phase.raised != Nothing
    ensures n < |actions| ==> !actions[n].Spawn?
    decreases n
  {
    var m := n - 1;
    assert Enabled(sites[m], actions[m], w) && sites[n] == Step(sites[m], actions[m], w);
    if j < m {
      NothingSpawnsAfter(sites, actions, w, j, m);
    }
    assert n < |actions| ==> Enabled(sites[n], actions[n], w);
  }

  // Exactly which runs lose the marker.

  predicate IsJobEvent(a: Action) {
    a.Spawn? || a.BodyRaises? || a.Close? || a.FileRaises?
  }

  /** The events of one job after which another error is on its way out than before. */
  predicate Raises(a: Action) {
    a.BodyRaises? || a.FileRaises? || (a.Close? && !(a.confirmed && a.filesClose))
  }

  /** The group was started, and its end was never confirmed: it was not closed, or closed in vain. */
  predicate LeftBehind(events: seq<Action>, pid: Pid) {
    Spawn(pid) in events && Close(pid, true, true) !in events && Close(pid, true, false) !in events
  }

  /** The last error raised is an unconfirmed cleanup, whose streams all closed: `handle` gets to see it. */
  predicate CleanupIsLast(events: seq<Action>) {
    exists i :: 0 <= i < |events| && events[i].Close? && !events[i].confirmed && events[i].filesClose
                && forall k :: i < k < |events| ==> !Raises(events[k])
  }

  /** The job left a group behind, and the last error raised, if any, says nothing of it. */
  ghost predicate HidesGroup(events: seq<Action>) {
    (exists pid :: LeftBehind(events, pid)) && !CleanupIsLast(events)
  }

  /** The job that starts with step `j` and ends with step `e`, after which `handle` goes on to its end. */
  predicate HandledJob(actions: seq<Action>, j: nat, e: nat) {
    && j < e && e + 1 < |actions|
    && actions[j] == StartJob && actions[e] == EndRun && actions[e + 1] == LeaveHandle
    && forall i :: j < i < e ==> IsJobEvent(actions[i])
  }

  ghost predicate LosesMarker(actions: seq<Action>, j: nat, e: nat) {
    HandledJob(actions, j, e) && HidesGroup(actions[j + 1..e])
  }

  /** What the state of a running job knows of its events so far. */
  ghost predicate Tracks(start: Site, events: seq<Action>, s: Site) {
    && s.phase.Running? && s.phase.open <= s.used && start.unconfirmed <= s.used
    && (s.phase.raised == CleanupError <==> CleanupIsLast(events))
    && (forall pid {:trigger pid in s.unconfirmed} {:trigger LeftBehind(events, pid)} ::
          (LeftBehind(events, pid) ==> pid in s.unconfirmed)
          && (pid in s.unconfirmed ==> LeftBehind(events, pid) || pid in start.unconfirmed))
    && (forall a :: a in events && (a.Spawn? || a.Close?) ==> a.pid in s.used && a.pid !in start.used)
  }

  lemma LastShorter(events: seq<Action>, a: Action)
    requires !Raises(a) && CleanupIsLast(events + [a])
    ensures CleanupIsLast(events)
  {
    var longer := events + [a];
    var i :| 0 <= i < |longer| && longer[i].Close? && !longer[i].confirmed && longer[i].filesClose
             && forall k :: i < k < |longer| ==> !Raises(longer[k]);
    assert Raises(longer[i]) && longer[|events|] == a;
    assert events[i] == longer[i];
    assert forall k :: i < k < |events| ==> events[k] == longer[k];
  }

  lemma LastIs(events: seq<Action>, a: Action)
    ensures CleanupIsLast(events + [a]) <==>
            if Raises(a) then a.Close? && !a.confirmed && a.filesClose else CleanupIsLast(events)
  {
    var longer := events + [a];
    assert longer[|events|] == a;
    if Raises(a) {
    } else if CleanupIsLast(events) {
      var i :| 0 <= i < |events| && events[i].Close? && !events[i].confirmed && events[i].filesClose
               && forall k :: i < k < |events| ==> !Raises(events[k]);
      assert longer[i] == events[i];
    } else if CleanupIsLast(longer) {
      LastShorter(events, a);
    }
  }

  lemma LeftIs(events: seq<Action>, a: Action, pid: Pid)
    ensures LeftBehind(events + [a], pid) <==>
            (a == Spawn(pid) || Spawn(pid) in events)
            && Close(pid, true, true) !in events && Close(pid, true, false) !in events
            && a != Close(pid, true, true) && a != Close(pid, true, false)
  {
  }

  lemma EventTracks(start: Site, events: seq<Action>, s: Site, a: Action, w: World)
    requires Tracks(start, events, s) && Enabled(s, a, w) && IsJobEvent(a)
    requires start.used <= s.used && s.phase.open !! start.used
    ensures Tracks(start, events + [a], Step(s, a, w))
    ensures start.used <= Step(s, a, w).used && Step(s, a, w).phase.open !! start.used
  {
    var next := Step(s, a, w);
    LastIs(events, a);
    forall pid
      ensures LeftBehind(events + [a], pid) ==> pid in next.unconfirmed
      ensures pid in next.unconfirmed ==> LeftBehind(events + [a], pid) || pid in start.unconfirmed
    {
      LeftIs(events, a, pid);
      assert LeftBehind(events, pid) <==> LeftBehind(events, pid);
    }
  }

  ghost predicate Bounded(s: Site) {
    && s.unconfirmed <= s.used
    && (s.phase.Running? || s.phase.Finishing? ==> s.marker)
    && (s.phase.Running? ==> s.phase.open <= s.used)
  }

  lemma {:induction false} RunIsBounded(sites: seq<Site>, actions: seq<Action>, w: World, n: nat)
    requires IsRun(sites, actions, w) && n < |sites|
    ensures Bounded(sites[n])
  {
    if n > 0 {
      var m := n - 1;
      RunIsBounded(sites, actions, w, m);
      assert sites[n] == Step(sites[m], actions[m], w);
    }
  }

  lemma {:induction false} JobTracks(sites: seq<Site>, actions: seq<Action>, w: World, j: nat, n: nat)
    requires IsRun(sites, actions, w) && j < n < |sites| && actions[j] == StartJob
    requires forall i :: j < i < n ==> IsJobEvent(actions[i])
    ensures Tracks(sites[j], actions[j + 1..n], sites[n])
    ensures sites[j].used <= sites[n].used && sites[n].phase.open !! sites[j].used
    decreases n
  {
    RunIsBounded(sites, actions, w, j);
    var m := n - 1;
    assert Enabled(sites[m], actions[m], w) && sites[n] == Step(sites[m], actions[m], w);
    if m == j {
      assert actions[j + 1..n] == [];
    } else {
      JobTracks(sites, actions, w, j, m);
      EventTracks(sites[j], actions[j + 1..m], sites[m], actions[m], w);
      assert actions[j + 1..n] == actions[j + 1..m] + [actions[m]];
    }
  }

  /** A running job has started. */
  lemma {:induction false} JobStart(sites: seq<Site>, actions: seq<Action>, w: World, n: nat) returns (j: nat)
    requires IsRun(sites, actions, w) && n < |sites| && sites[n].phase.Running?
    ensures j < n && actions[j] == StartJob && forall i :: j < i < n ==> IsJobEvent(actions[i])
  {
    var m := n - 1;
    assert Enabled(sites[m], actions[m], w) && sites[n] == Step(sites[m], actions[m], w);
    if actions[m] == StartJob {
      j := m;
    } else {
      j := JobStart(sites, actions, w, m);
    }
  }

  lemma HiddenGroupIsLost(sites: seq<Site>, actions: seq<Action>, w: World, j: nat, e: nat)
    requires IsRun(sites, actions, w) && LosesMarker(actions, j, e)
    ensures !Safe(sites[e + 2])
  {
    JobTracks(sites, actions, w, j, e);
    var pid :| LeftBehind(actions[j + 1..e], pid);
    assert pid in sites[e].unconfirmed;
    assert Enabled(sites[e], actions[e], w) && sites[e + 1] == Step(sites[e], actions[e], w);
    assert Enabled(sites[e + 1], actions[e + 1], w) && sites[e + 2] == Step(sites[e + 1], actions[e + 1], w);
  }

  /** The step that first loses the marker is the end of `handle` for a job that left a group behind. */
  lemma LostIsHidden(sites: seq<Site>, actions: seq<Action>, w: World, n: nat) returns (j: nat, e: nat)
    requires IsRun(sites, actions, w) && n < |sites| && !Safe(sites[n]) && forall m :: 0 <= m < n ==> Safe(sites[m])
    ensures LosesMarker(actions, j, e)
  {
    var m := n - 1;
    RunIsBounded(sites, actions, w, m);
    assert Enabled(sites[m], actions[m], w) && sites[n] == Step(sites[m], actions[m], w);
    assert actions[m] == LeaveHandle && sites[m].phase == Finishing(true);
    e := m - 1;
    assert Enabled(sites[e], actions[e], w) && sites[m] == Step(sites[e], actions[e], w);
    assert actions[e] == EndRun && sites[e].phase.Running?;
    j := JobStart(sites, actions, w, e);
    JobTracks(sites, actions, w, j, e);
    assert Enabled(sites[j], actions[j], w) && Safe(sites[j]);
    assert sites[j].unconfirmed == {};
    var pid :| pid in sites[e].unconfirmed;
    assert LeftBehind(actions[j + 1..e], pid);
  }

  lemma {:induction false} FirstUnsafe(sites: seq<Site>, n: nat) returns (k: nat)
    requires n < |sites| && !Safe(sites[n])
    ensures k < |sites| && !Safe(sites[k]) && forall m :: 0 <= m < k ==> Safe(sites[m])
    decreases n
  {
    if m :| 0 <= m < n && !Safe(sites[m]) {
      k := FirstUnsafe(sites, m);
    } else {
      k := n;
    }
  }

  /** A run ever has a process left and no marker if and only if one of its jobs left a group behind while the last
      error it raised, if any, was not an unconfirmed cleanup whose streams closed. */
  lemma MarkerIsLostExactly(sites: seq<Site>, actions: seq<Action>, w: World)
    requires IsRun(sites, actions, w)
    ensures (exists n :: 0 <= n < |sites| && !Safe(sites[n])) <==> (exists j, e :: LosesMarker(actions, j, e))
  {
    if n :| 0 <= n < |sites| && !Safe(sites[n]) {
      var k := FirstUnsafe(sites, n);
      var j, e := LostIsHidden(sites, actions, w, k);
    }
    if j, e :| LosesMarker(actions, j, e) {
      HiddenGroupIsLost(sites, actions, w, j, e);
    }
  }

  // Two such runs.

  /** A job of this worker is running. */
  lemma FirstJob(w: World) returns (s: Site)
    ensures Reachable(s, w) && s == Site(Running(Nothing, {}, false), true, {}, {})
  {
    assert IsRun([FRESH], [], w);
    assert [FRESH][|[FRESH]| - 1] == FRESH;
    var booted := Step(FRESH, Boot, w);
    ReachableStep(FRESH, Boot, w);
    var idle := Step(booted, CheckMarker, w);
    ReachableStep(booted, CheckMarker, w);
    s := Step(idle, StartJob, w);
    ReachableStep(idle, StartJob, w);
  }

  lemma FirstJobEnds(s: Site, w: World) returns (left: Site)
    requires Reachable(s, w) && s.phase.Running? && s.phase.closeRaised && s.phase.raised == OtherError
    ensures Reachable(left, w) && !left.marker && left.unconfirmed == s.unconfirmed
  {
    var ended := Step(s, EndRun, w);
    ReachableStep(s, EndRun, w);
    left := Step(ended, LeaveHandle, w);
    ReachableStep(ended, LeaveHandle, w);
  }

  /** If a stream fails to close after an unconfirmed cleanup, the cleanup error is replaced by another one, and the
      marker is removed although the process may be left. */
  lemma MaskedCleanupIsUnsafe(w: World) returns (left: Site)
    requires w.closeMayFail
    ensures Reachable(left, w) && !left.marker && left.unconfirmed == {0}
  {
    var running := FirstJob(w);
    var spawned := Step(running, Spawn(0), w);
    ReachableStep(running, Spawn(0), w);
    var closed := Step(spawned, Close(0, false, false), w);
    ReachableStep(spawned, Close(0, false, false), w);
    left := FirstJobEnds(closed, w);
  }

  /** If a stream of the first of two sessions fails to close, the second is never closed at all, and the marker is
      removed although the cleanup of the first was confirmed. */
  lemma UnclosedGroupIsUnsafe(w: World) returns (left: Site)
    requires w.closeMayFail
    ensures Reachable(left, w) && !left.marker && left.unconfirmed == {1}
  {
    var running := FirstJob(w);
    var one := Step(running, Spawn(0), w);
    ReachableStep(running, Spawn(0), w);
    var two := Step(one, Spawn(1), w);
    ReachableStep(one, Spawn(1), w);
    var closed := Step(two, Close(0, true, false), w);
    ReachableStep(two, Close(0, true, false), w);
    left := FirstJobEnds(closed, w);
  }

  /** The marker is safe over all runs exactly if closing streams cannot raise. */
  lemma MarkerSafetyIsExact(w: World)
    ensures (forall s :: Reachable(s, w) ==> Safe(s)) <==> !w.closeMayFail
  {
    if w.closeMayFail {
      var left := MaskedCleanupIsUnsafe(w);
      assert !Safe(left);
    } else {
      forall s | Reachable(s, w) ensures Safe(s) {
        var sites, actions :| IsRun(sites, actions, w) && sites[|sites| - 1] == s;
        RunKeepsInv(sites, actions, w, |sites| - 1);
      }
    }
  }
}
