/** `deploy/update.py`: a reviewed update that can be interrupted between any two file operations and undone. */
module Update {
  import opened Common

  /** A file with its owner and mode, or a symbolic link. */
  datatype Node = File(data: bytes, uid: nat, gid: nat, mode: nat) | Link

  type Files = map<string, Node>

  /** What the receipt records of one tracked file; `None` is an absent file. */
  datatype Item = Item(before: Option<Hash>, after: Option<Hash>, uid: nat, gid: nat, mode: nat)

  datatype Progress = Prepared | Installed | RolledBack

  datatype Receipt = Receipt(status: Progress, names: seq<string>, items: map<string, Item>)
  {
    ghost predicate WellFormed() {
      && (forall i :: 0 <= i < |names| ==> names[i] in items)
      && (forall name :: name in items ==> exists i :: 0 <= i < |names| && names[i] == name)
      && (forall i, j :: 0 <= i < j < |names| ==> names[i] != names[j])
    }
  }

  /** `current`: the digest of a file, `None` if it is absent; a symbolic link is an error. */
  function Current(files: Files, name: string): Result<Option<Hash>, ()> {
    if name !in files then Ok(None)
    else if files[name].Link? then Err(())
    else Ok(Some(Digest(files[name].data)))
  }

  predicate Matches(live: Files, backup: Files, item: Item, name: string) {
    && (Current(live, name) == Ok(item.before) || Current(live, name) == Ok(item.after))
    && (item.before.Some? ==> Current(backup, name) == Ok(item.before))
  }

  /** No tracked file was changed by anyone else, and every backup is intact. */
  ghost predicate Preflight(live: Files, backup: Files, r: Receipt) {
    forall name {:trigger r.items[name]} :: name in r.items ==> Matches(live, backup, r.items[name], name)
  }

  /** In terms of the files: each tracked one is absent or has content as it was recorded, from before or from after the
      update, and there is a copy of every file that existed before. */
  lemma PreflightIs(live: Files, backup: Files, r: Receipt)
    ensures Preflight(live, backup, r) <==>
              forall name {:trigger r.items[name]} :: name in r.items ==>
                var before, after := r.items[name].before, r.items[name].after;
                && (if name in live then
                      live[name].File? && (Some(Digest(live[name].data)) == before || Some(Digest(live[name].data)) == after)
                    else before.None? || after.None?)
                && (before.Some? ==> name in backup && backup[name].File? && Digest(backup[name].data) == before.value)
  {
  }

  /** What restoring makes of one file. */
  predicate Restored(live: Files, item: Item, name: string) {
    match item.before
    case None => name !in live
    case Some(hash) =>
      name in live && live[name].File? && Digest(live[name].data) == hash
      && live[name].uid == item.uid && live[name].gid == item.gid && live[name].mode == item.mode
  }

  /** The receipt describes the files as they were at `original`. */
  ghost predicate Describes(r: Receipt, original: Files) {
    forall name {:trigger r.items[name]} :: name in r.items ==> Restored(original, r.items[name], name)
  }

  ghost predicate UntrackedSame(live: Files, original: Files, r: Receipt) {
    forall name {:trigger name in r.items} :: name !in r.items ==>
      (name in live <==> name in original) && (name in live ==> live[name] == original[name])
  }

  /** With digests free of collisions, a restored tree is the original one, bytes, owners and modes. */
  lemma RestoredIsOriginal(live: Files, original: Files, r: Receipt)
    requires Describes(r, original) && UntrackedSame(live, original, r)
    requires forall name {:trigger r.items[name]} :: name in r.items ==> Restored(live, r.items[name], name)
    ensures live == original
  {
    forall name ensures (name in live <==> name in original) && (name in live ==> live[name] == original[name]) {
      if name in r.items {
        assert Restored(live, r.items[name], name) && Restored(original, r.items[name], name);
      }
    }
    assert live.Keys == original.Keys;
  }

  /** One file of the reviewed plan: the digest it must have now and the digest of the staged replacement. */
  datatype Planned = Planned(name: string, before: Option<Hash>, after: Hash)

  const CONFIG := "config/worker.json"

  /** `target`: the only names an update may touch. */
  predicate IsTarget(name: string, mac: bool) {
    || name == "agent.py" || name == "rollout-probe.py" || name == "source-probe.py"
    || (name == CONFIG && mac)
    || (|name| > 12 && name[..9] == "macqueue/" && name[|name| - 3..] == ".py"
        && forall i :: 9 <= i < |name| - 3 ==> 'a' <= name[i] <= 'z' || name[i] == '_')
  }

  predicate IsStem(stem: string) {
    stem != "" && forall c :: c in stem ==> c == '_' || 'a' <= c <= 'z'
  }

  lemma StemIsTarget(stem: string, mac: bool)
    requires IsStem(stem)
    ensures IsTarget("macqueue/" + stem + ".py", mac)
  {
    var name := "macqueue/" + stem + ".py";
    assert |name| - 3 == 9 + |stem| && name[..9] == "macqueue/" && name[|name| - 3..] == ".py";
    forall i | 9 <= i < |name| - 3 ensures 'a' <= name[i] <= 'z' || name[i] == '_' {
      assert name[i] == stem[i - 9] && stem[i - 9] in stem;
    }
  }

  lemma TargetHasStem(name: string, mac: bool) returns (stem: string)
    requires IsTarget(name, mac) && name !in ["agent.py", "rollout-probe.py", "source-probe.py", CONFIG]
    ensures IsStem(stem) && name == "macqueue/" + stem + ".py"
  {
    stem := name[9..|name| - 3];
    assert name == name[..9] + stem + name[|name| - 3..];
    assert forall i :: 0 <= i < |stem| ==> stem[i] == name[9 + i];
  }

  /** In other words: four fixed names, or a module of the package. */
  lemma TargetNames(name: string, mac: bool)
    ensures IsTarget(name, mac) <==>
              || name in ["agent.py", "rollout-probe.py", "source-probe.py"]
              || (mac && name == "config/worker.json")
              || exists stem :: IsStem(stem) && name == "macqueue/" + stem + ".py"
  {
    if stem :| IsStem(stem) && name == "macqueue/" + stem + ".py" {
      StemIsTarget(stem, mac);
    } else if IsTarget(name, mac) && name !in ["agent.py", "rollout-probe.py", "source-probe.py", CONFIG] {
      var stem := TargetHasStem(name, mac);
    }
  }

  predicate Reviewed(live: Files, staged: Files, mac: bool, p: Planned) {
    && IsTarget(p.name, mac) && p.name != CONFIG
    && Current(live, p.name) == Ok(p.before)
    && Current(staged, p.name) == Ok(Some(p.after))
  }

  /** In terms of the files: the name is allowed and not the configuration's, the installed file is as it was when the plan
      was reviewed, and the staged one is the reviewed one. */
  lemma ReviewedIs(live: Files, staged: Files, mac: bool, p: Planned)
    ensures Reviewed(live, staged, mac, p) <==>
              && IsTarget(p.name, mac) && p.name != "config/worker.json"
              && (match p.before
                  case None => p.name !in live
                  case Some(hash) => p.name in live && live[p.name].File? && Digest(live[p.name].data) == hash)
              && p.name in staged && staged[p.name].File? && Digest(staged[p.name].data) == p.after
  {
  }

  function Names(plan: seq<Planned>): seq<string> {
    seq(|plan|, i requires 0 <= i < |plan| => plan[i].name)
  }

  ghost predicate Distinct(names: seq<string>) {
    forall i, j :: 0 <= i < j < |names| ==> names[i] != names[j]
  }

  /** `before`, owner and mode as found; an absent file gets the defaults of the platform. */
  function Recorded(live: Files, name: string, after: Option<Hash>, gid: nat, mode: nat): Item {
    if name in live && live[name].File? then
      Item(Some(Digest(live[name].data)), after, live[name].uid, live[name].gid, live[name].mode)
    else Item(None, after, 0, gid, mode)
  }

  /** What applying a reviewed plan makes of one file. */
  predicate Replaced(live: Files, original: Files, name: string, data: bytes) {
    && name in live && live[name].File? && live[name].data == data
    && (name in original && original[name].File? ==> live[name] == original[name].(data := data))
  }

  /** The planned files, and on the Mac the worker's configuration. */
  function TrackedNames(plan: seq<Planned>, mac: bool): seq<string> {
    if mac then Names(plan) + [CONFIG] else Names(plan)
  }

  lemma TrackedAreDistinct(plan: seq<Planned>, mac: bool)
    requires Distinct(Names(plan)) && forall p :: p in plan ==> p.name != CONFIG
    ensures Distinct(TrackedNames(plan, mac))
  {
    forall i | 0 <= i < |plan| ensures Names(plan)[i] != CONFIG {
      assert plan[i] in plan;
    }
  }

  lemma PlanIsTracked(plan: seq<Planned>, mac: bool)
    ensures forall p :: p in plan ==> p.name in TrackedNames(plan, mac) && p.name in Names(plan)
    ensures mac ==> CONFIG in TrackedNames(plan, mac)
  {
    forall p | p in plan ensures p.name in TrackedNames(plan, mac) && p.name in Names(plan) {
      var k :| 0 <= k < |plan| && plan[k] == p;
      assert Names(plan)[k] == p.name && TrackedNames(plan, mac)[k] == p.name;
    }
    if mac {
      assert TrackedNames(plan, mac)[|plan|] == CONFIG;
    }
  }

  ghost predicate Announces(r: Receipt, plan: seq<Planned>, staged: Files) {
    forall p :: p in plan ==>
      && p.name in r.items && p.name in staged && staged[p.name].File?
      && r.items[p.name].after == Some(Digest(staged[p.name].data))
  }

  ghost predicate RecordedAs(r: Receipt, live: Files, gid: nat, mode: nat) {
    forall name {:trigger r.items[name]} :: name in r.items ==>
      r.items[name] == Recorded(live, name, r.items[name].after, gid, mode)
  }

  ghost predicate SameOutside(live: Files, before: Files, names: seq<string>) {
    forall name {:trigger name in names} :: name !in names ==>
      (name in live <==> name in before) && (name in live ==> live[name] == before[name])
  }

  /** The staged content, with the recorded owner and mode. */
  predicate InstalledAs(live: Files, r: Receipt, name: string, staged: Files) {
    && name in r.items && name in staged && staged[name].File? && name in live
    && live[name] == File(staged[name].data, r.items[name].uid, r.items[name].gid, r.items[name].mode)
  }

  lemma AnnouncedAt(r: Receipt, plan: seq<Planned>, staged: Files, i: nat)
    requires Announces(r, plan, staged) && i < |plan|
    ensures var name := plan[i].name;
            Names(plan)[i] == name && name in r.items && name in staged && staged[name].File?
            && r.items[name].after == Some(Digest(staged[name].data))
  {
    assert plan[i] in plan;
  }

  /** The tree after `apply`: every reviewed file has its staged content and its owner, nothing else has changed. */
  lemma AppliedAsReviewed(live: Files, installed: Files, original: Files, r: Receipt, plan: seq<Planned>, staged: Files,
                          mac: bool, configured: Option<bytes>, gid: nat, mode: nat)
    requires RecordedAs(r, original, gid, mode)
    requires forall p :: p in plan ==> InstalledAs(installed, r, p.name, staged)
    requires SameOutside(installed, original, Names(plan))
    requires mac ==> CONFIG in r.items && CONFIG !in Names(plan) && configured.Some?
    requires live == if !mac then installed
                     else installed[CONFIG := File(configured.value, r.items[CONFIG].uid, r.items[CONFIG].gid, r.items[CONFIG].mode)]
    ensures forall p :: p in plan ==>
              p.name in staged && staged[p.name].File? && Replaced(live, original, p.name, staged[p.name].data)
    ensures mac ==> Replaced(live, original, CONFIG, configured.value)
    ensures SameOutside(live, original, TrackedNames(plan, mac))
  {
    PlanIsTracked(plan, mac);
    forall p | p in plan
      ensures p.name in staged && staged[p.name].File? && Replaced(live, original, p.name, staged[p.name].data)
    {
      assert InstalledAs(installed, r, p.name, staged);
      assert r.items[p.name] == Recorded(original, p.name, r.items[p.name].after, gid, mode);
    }
    if mac {
      assert r.items[CONFIG] == Recorded(original, CONFIG, r.items[CONFIG].after, gid, mode);
    }
    forall name | name !in TrackedNames(plan, mac)
      ensures (name in live <==> name in original) && (name in live ==> live[name] == original[name])
    {
      assert name !in Names(plan);
    }
  }

  /** Planned files are announced with their staged content, all others with the content they have. */
  ghost predicate Expects(r: Receipt, plan: set<string>, staged: Files) {
    forall name {:trigger r.items[name]} :: name in r.items ==>
      if name in plan then name in staged && staged[name].File? && r.items[name].after == Some(Digest(staged[name].data))
      else r.items[name].after == r.items[name].before
  }

  lemma ExpectsAnnounces(r: Receipt, plan: seq<Planned>, planned: set<string>, staged: Files, mac: bool)
    requires r.WellFormed() && r.names == TrackedNames(plan, mac) && Expects(r, planned, staged)
    requires planned == set p | p in plan :: p.name
    requires Distinct(r.names)
    ensures Announces(r, plan, staged)
    ensures mac ==> CONFIG in r.items && CONFIG !in Names(plan) && r.items[CONFIG].after == r.items[CONFIG].before
  {
    PlanIsTracked(plan, mac);
    forall p | p in plan
      ensures p.name in r.items && p.name in staged && staged[p.name].File?
              && r.items[p.name].after == Some(Digest(staged[p.name].data))
    {
      assert p.name in planned;
    }
    if mac {
      assert r.names[|plan|] == CONFIG;
      forall i | 0 <= i < |plan| ensures Names(plan)[i] != CONFIG && plan[i].name != CONFIG {
        assert r.names[i] != r.names[|plan|];
      }
    }
  }

  ghost predicate NoLinks(live: Files, names: seq<string>) {
    forall name :: name in names && name in live ==> live[name].File?
  }

  /** A new digest may be announced for a file that has not changed yet. */
  lemma AnnouncementIsSafe(r: Receipt, name: string, after: Option<Hash>, live: Files, backup: Files, original: Files)
    requires name in r.items && r.items[name].after == r.items[name].before
    requires r.WellFormed() && Describes(r, original) && Preflight(live, backup, r) && UntrackedSame(live, original, r)
    ensures var n := r.(items := r.items[name := r.items[name].(after := after)]);
            n.WellFormed() && Describes(n, original) && Preflight(live, backup, n) && UntrackedSame(live, original, n)
  {
    var n := r.(items := r.items[name := r.items[name].(after := after)]);
    forall other | other in n.items
      ensures Matches(live, backup, n.items[other], other) && Restored(original, n.items[other], other)
      ensures exists i :: 0 <= i < |n.names| && n.names[i] == other
    {
      assert Matches(live, backup, r.items[other], other) && Restored(original, r.items[other], other);
    }
  }

  datatype Attempt = Attempt(budget: nat, stopped: bool, started: bool)
  {
    /** The service stops and starts, and no interruption comes before every file and the receipt are written. */
    predicate Suffices(files: nat) {
      stopped && started && budget >= 4 * files + 4
    }
  }

  datatype Outcome = Done | Refused | Interrupted

  class Machine {
    var live: Files
    var backup: Files
    var receipt: Option<Receipt>
    /** Temporary files that an interruption can leave behind. */
    var temporary: seq<Node>
    /** How many more file operations happen before the interruption. */
    var budget: nat

    constructor (live: Files, budget: nat)
      ensures this.live == live && backup == map[] && receipt == None && this.budget == budget
    {
      this.live, this.budget := live, budget;
      backup, receipt, temporary := map[], None, [];
    }

    /** From here a completed rollback restores `original`. */
    ghost predicate Recoverable(original: Files)
      reads this
    {
      match receipt
      case None => live == original
      case Some(r) =>
        r.WellFormed() && Describes(r, original) && Preflight(live, backup, r) && UntrackedSame(live, original, r)
    }

    method Operation() returns (alive: bool)
      modifies this`budget
      ensures alive <==> old(budget) > 0
      ensures alive ==> budget == old(budget) - 1
    {
      alive := budget > 0;
      if alive {
        budget := budget - 1;
      }
    }

    /** Write a temporary file in full; its owner and mode are set in separate operations. */
    method WriteTemporary(data: bytes, uid: nat, gid: nat, mode: nat) returns (alive: bool)
      modifies this`budget, this`temporary
      ensures alive <==> old(budget) >= 3
      ensures alive ==> budget == old(budget) - 3
      ensures alive ==> |temporary| > 0 && temporary[|temporary| - 1] == File(data, uid, gid, mode)
    {
      alive := Operation();
      if !alive { return; }
      temporary := temporary + [File(data, 0, 0, 0x1A4)];
      var last := |temporary| - 1;
      alive := Operation();
      if !alive { return; }
      temporary := temporary[last := File(data, uid, gid, 0x1A4)];
      alive := Operation();
      if !alive { return; }
      temporary := temporary[last := File(data, uid, gid, mode)];
    }

    /** `replace` of a live file: nothing changes before the final rename. */
    method ReplaceLive(name: string, data: bytes, uid: nat, gid: nat, mode: nat) returns (alive: bool)
      modifies this`budget, this`temporary, this`live
      ensures alive <==> old(budget) >= 4
      ensures alive ==> budget == old(budget) - 4
      ensures live == if alive then old(live)[name := File(data, uid, gid, mode)] else old(live)
    {
      alive := WriteTemporary(data, uid, gid, mode);
      if !alive { return; }
      alive := Operation();
      if !alive { return; }
      live := live[name := temporary[|temporary| - 1]];
      temporary := temporary[..|temporary| - 1];
    }

    /** `save`: the receipt is replaced in the same way. */
    method Save(r: Receipt) returns (alive: bool)
      modifies this`budget, this`temporary, this`receipt
      ensures alive <==> old(budget) >= 4
      ensures alive ==> budget == old(budget) - 4
      ensures receipt == if alive then Some(r) else old(receipt)
    {
      alive := WriteTemporary([], 0, 0, 0x180);
      if !alive { return; }
      alive := Operation();
      if !alive { return; }
      temporary := temporary[..|temporary| - 1];
      receipt := Some(r);
    }

    /** The preflight over all tracked files, before any file is touched. */
    method CheckRestore(r: Receipt) returns (ok: bool)
      requires r.WellFormed()
      ensures ok <==> Preflight(live, backup, r)
      ensures ok <==>
              forall name {:trigger r.items[name]} :: name in r.items ==>
                var before, after := r.items[name].before, r.items[name].after;
                && (if name in live then
                      live[name].File? && (Some(Digest(live[name].data)) == before || Some(Digest(live[name].data)) == after)
                    else before.None? || after.None?)
                && (before.Some? ==> name in backup && backup[name].File? && Digest(backup[name].data) == before.value)
    {
      PreflightIs(live, backup, r);
      var i := 0;
      while i < |r.names|
        invariant i <= |r.names|
        invariant forall k :: 0 <= k < i ==> Matches(live, backup, r.items[r.names[k]], r.names[k])
      {
        if !Matches(live, backup, r.items[r.names[i]], r.names[i]) {
          return false;
        }
        i := i + 1;
      }
      return true;
    }

    /** Put one tracked file back. */
    method RestoreFile(name: string, item: Item) returns (alive: bool)
      requires Matches(live, backup, item, name)
      modifies this`budget, this`temporary, this`live
      ensures old(budget) >= 4 ==> alive
      ensures alive ==> budget >= old(budget) - 4
      ensures alive ==> Restored(live, item, name)
      ensures Matches(live, backup, item, name)
      ensures forall other :: other != name ==>
                (other in live <==> other in old(live)) && (other in live ==> live[other] == old(live)[other])
    {
      match item.before {
        case None =>
          alive := Operation();
          if !alive { return; }
          live := live - {name};
        case Some(hash) =>
          alive := ReplaceLive(name, backup[name].data, item.uid, item.gid, item.mode);
      }
    }

    method Restore(r: Receipt) returns (outcome: Outcome)
      requires r.WellFormed()
      modifies this`budget, this`temporary, this`live
      ensures !Preflight(old(live), backup, r) ==> outcome == Refused && live == old(live)
      ensures Preflight(old(live), backup, r) ==> outcome != Refused && Preflight(live, backup, r)
      ensures outcome == Done ==> forall name {:trigger r.items[name]} :: name in r.items ==> Restored(live, r.items[name], name)
      ensures UntrackedSame(live, old(live), r)
      ensures outcome == Done ==> budget >= old(budget) - 4 * |r.names|
      ensures old(budget) >= 4 * |r.names| ==> outcome != Interrupted
    {
      var ok := CheckRestore(r);
      if !ok {
        return Refused;
      }
      var i := 0;
      while i < |r.names|
        invariant i <= |r.names| && Preflight(live, backup, r) && UntrackedSame(live, old(live), r)
        invariant forall k :: 0 <= k < i ==> Restored(live, r.items[r.names[k]], r.names[k])
        invariant budget >= old(budget) - 4 * i
      {
        var alive := RestoreFile(r.names[i], r.items[r.names[i]]);
        if !alive {
          return Interrupted;
        }
        i := i + 1;
      }
      return Done;
    }

    /** `rollback`: refuse before anything is touched, or restore everything and only then mark the receipt. */
    method Rollback(stopped: bool, started: bool, ghost original: Files) returns (outcome: Outcome)
      requires receipt.Some? ==> receipt.value.WellFormed()
      modifies this`budget, this`temporary, this`live, this`receipt
      ensures outcome == Refused <==>
              old(receipt.None? || receipt.value.status == RolledBack || !Preflight(live, backup, receipt.value))
      ensures outcome == Refused ==> live == old(live)
      ensures receipt == if outcome == Done && old(receipt).Some?
                then Some(old(receipt.value).(status := RolledBack)) else old(receipt)
      ensures old(Recoverable(original)) ==> Recoverable(original)
      ensures outcome == Done && old(Recoverable(original)) ==> live == original
      ensures outcome == Done ==> stopped && started
      ensures !stopped ==> live == old(live)
      ensures stopped && started && old(receipt.Some? && budget >= 4 * |receipt.value.names| + 4) ==> outcome != Interrupted
    {
      if receipt.None? || receipt.value.status == RolledBack {
        return Refused;
      }
      var r := receipt.value;
      var ok := CheckRestore(r);
      if !ok {
        return Refused;
      }
      if !stopped {
        return Interrupted;
      }
      outcome := Restore(r);
      if outcome == Interrupted {
        return;
      }
      if old(Recoverable(original)) {
        RestoredIsOriginal(live, original, r);
      }
      if !started {
        return Interrupted;
      }
      var alive := Save(r.(status := RolledBack));
      outcome := if alive then Done else Interrupted;
    }

    /** Any number of interrupted rollbacks: as soon as one completes, the original files are back for good. */
    method Recover(attempts: seq<Attempt>, ghost original: Files) returns (done: bool)
      requires Recoverable(original)
      modifies this
      ensures Recoverable(original)
      ensures done ==> live == original
      ensures old(receipt.Some? && receipt.value.status != RolledBack) ==>
                (exists i :: 0 <= i < |attempts| && attempts[i].Suffices(old(|receipt.value.names|))) ==> done
    {
      done := false;
      var i := 0;
      while i < |attempts|
        invariant i <= |attempts| && Recoverable(original) && (done ==> live == original)
        invariant receipt.Some? <==> old(receipt).Some?
        invariant receipt.Some? ==> receipt.value.names == old(receipt).value.names
        invariant done ==> receipt.Some? && receipt.value.status == RolledBack
        invariant old(receipt.Some? && receipt.value.status != RolledBack) ==>
                    receipt.value.status == RolledBack ==> done
        invariant old(receipt.Some? && receipt.value.status != RolledBack) ==>
                    forall k :: 0 <= k < i && attempts[k].Suffices(old(|receipt.value.names|)) ==> done
      {
        budget := attempts[i].budget;
        var outcome := Rollback(attempts[i].stopped, attempts[i].started, original);
        if outcome == Done {
          done := true;
        }
        i := i + 1;
      }
    }

    method CheckPlan(plan: seq<Planned>, staged: Files, mac: bool) returns (ok: bool)
      ensures ok <==> plan != [] && forall p :: p in plan ==> Reviewed(live, staged, mac, p)
    {
      if plan == [] {
        return false;
      }
      var i := 0;
      while i < |plan|
        invariant i <= |plan|
        invariant forall k :: 0 <= k < i ==> Reviewed(live, staged, mac, plan[k])
      {
        if !Reviewed(live, staged, mac, plan[i]) {
          return false;
        }
        i := i + 1;
      }
      return true;
    }

    /** Write one backup; an interruption can leave it cut short. */
    method Backup(name: string, data: bytes) returns (alive: bool)
      modifies this`budget, this`backup
      ensures alive <==> old(budget) >= 2
      ensures alive ==> budget == old(budget) - 2
      ensures alive ==> Current(backup, name) == Ok(Some(Digest(data)))
      ensures forall other :: other != name ==>
                (other in backup <==> other in old(backup)) && (other in backup ==> backup[other] == old(backup)[other])
    {
      alive := Operation();
      if !alive { return; }
      backup := backup[name := File([], 0, 0, 0x180)];
      alive := Operation();
      if !alive { return; }
      backup := backup[name := File(data, 0, 0, 0x180)];
    }

    /** Record every file and back it up. Until the receipt is saved, no live file has been touched. */
    method Record(names: seq<string>, staged: Files, plan: set<string>, gid: nat, mode: nat)
        returns (recorded: Option<Receipt>)
      requires Distinct(names)
      requires forall name :: name in plan ==> name in staged && staged[name].File?
      modifies this`budget, this`backup
      ensures recorded.Some? ==>
                var r := recorded.value;
                r.WellFormed() && r.status == Prepared && r.names == names
                && Describes(r, live) && Preflight(live, backup, r)
      ensures recorded.Some? ==> RecordedAs(recorded.value, live, gid, mode) && Expects(recorded.value, plan, staged)
      ensures recorded.Some? ==> budget >= old(budget) - 2 * |names|
      ensures old(budget) >= 2 * |names| && NoLinks(live, names) ==> recorded.Some?
    {
      var items: map<string, Item> := map[];
      var i := 0;
      while i < |names|
        invariant i <= |names| && budget >= old(budget) - 2 * i
        invariant forall k :: 0 <= k < i ==> names[k] in items
        invariant forall name :: name in items ==> exists k :: 0 <= k < i && names[k] == name
        invariant forall name {:trigger items[name]} :: name in items ==>
                    Matches(live, backup, items[name], name) && Restored(live, items[name], name)
                    && items[name] == Recorded(live, name, items[name].after, gid, mode)
                    && items[name].after == if name in plan then Some(Digest(staged[name].data)) else items[name].before
      {
        var name := names[i];
        var before := Current(live, name);
        if before.Err? {
          return None;
        }
        var after := if name in plan then Some(Digest(staged[name].data)) else before.value;
        if before.value.Some? {
          var alive := Backup(name, live[name].data);
          if !alive {
            return None;
          }
        }
        items := items[name := Recorded(live, name, after, gid, mode)];
        i := i + 1;
      }
      return Some(Receipt(Prepared, names, items));
    }

    /** Replace one tracked file by the content its receipt announces. */
    method ReplaceTracked(name: string, data: bytes, ghost original: Files) returns (alive: bool)
      requires Recoverable(original) && receipt.Some? && name in receipt.value.items
      requires receipt.value.items[name].after == Some(Digest(data))
      modifies this`budget, this`temporary, this`live
      ensures Recoverable(original)
      ensures alive <==> old(budget) >= 4
      ensures alive ==> budget == old(budget) - 4
      ensures var item := receipt.value.items[name];
              live == if alive then old(live)[name := File(data, item.uid, item.gid, item.mode)] else old(live)
    {
      var item := receipt.value.items[name];
      alive := ReplaceLive(name, data, item.uid, item.gid, item.mode);
    }

    /** The worker's configuration: its new digest is in the receipt before the file changes. */
    method Configure(data: bytes, ghost original: Files) returns (alive: bool)
      requires Recoverable(original) && receipt.Some? && CONFIG in receipt.value.items
      requires receipt.value.items[CONFIG].after == receipt.value.items[CONFIG].before
      modifies this`budget, this`temporary, this`live, this`receipt
      ensures Recoverable(original)
      ensures receipt.Some? && receipt.value.names == old(receipt).value.names
      ensures receipt.value.status == old(receipt).value.status
      ensures alive <==> old(budget) >= 8
      ensures alive ==> budget == old(budget) - 8
      ensures !alive ==> live == old(live)
      ensures alive ==> var item := old(receipt).value.items[CONFIG];
                        live == old(live)[CONFIG := File(data, item.uid, item.gid, item.mode)]
    {
      var r := receipt.value;
      var item := r.items[CONFIG].(after := Some(Digest(data)));
      AnnouncementIsSafe(r, CONFIG, Some(Digest(data)), live, backup, original);
      alive := Save(r.(items := r.items[CONFIG := item]));
      if !alive { return; }
      alive := ReplaceTracked(CONFIG, data, original);
    }

    /** Replace the planned files one after another. */
    method Install(plan: seq<Planned>, staged: Files, ghost original: Files) returns (alive: bool)
      requires Recoverable(original) && receipt.Some? && Distinct(Names(plan)) && Announces(receipt.value, plan, staged)
      modifies this`budget, this`temporary, this`live
      ensures Recoverable(original)
      ensures alive ==> forall p :: p in plan ==> InstalledAs(live, receipt.value, p.name, staged)
      ensures SameOutside(live, old(live), Names(plan))
      ensures alive <==> old(budget) >= 4 * |plan|
      ensures alive ==> budget == old(budget) - 4 * |plan|
    {
      var i := 0;
      while i < |plan|
        invariant i <= |plan| && Recoverable(original) && budget == old(budget) - 4 * i
        invariant forall k :: 0 <= k < i ==> InstalledAs(live, receipt.value, plan[k].name, staged)
        invariant SameOutside(live, old(live), Names(plan))
      {
        var name := plan[i].name;
        AnnouncedAt(receipt.value, plan, staged, i);
        ghost var before := live;
        alive := ReplaceTracked(name, staged[name].data, original);
        if !alive { return; }
        forall k | 0 <= k < i ensures InstalledAs(live, receipt.value, plan[k].name, staged) {
          assert InstalledAs(before, receipt.value, plan[k].name, staged) && Names(plan)[k] != name;
        }
        i := i + 1;
      }
      alive := true;
    }

    /** Check the plan, record and back up every file, save the receipt; no live file is touched. */
    method Prepare(plan: seq<Planned>, staged: Files, mac: bool, gid: nat, mode: nat, checked: bool)
        returns (outcome: Outcome)
      requires receipt == None && backup == map[]
      requires Distinct(Names(plan))
      modifies this`budget, this`temporary, this`backup, this`receipt
      ensures outcome == Refused <==> plan == [] || !checked || exists p :: p in plan && !Reviewed(live, staged, mac, p)
      ensures outcome == Refused ==> backup == map[]
      ensures receipt.Some? <==> outcome == Done
      ensures Recoverable(live)
      ensures outcome == Done ==> Announces(receipt.value, plan, staged) && receipt.value.status == Prepared
      ensures outcome == Done ==> RecordedAs(receipt.value, live, gid, mode)
      ensures outcome == Done && mac ==> CONFIG in receipt.value.items && CONFIG !in Names(plan)
                                         && receipt.value.items[CONFIG].after == receipt.value.items[CONFIG].before
      ensures outcome == Done ==> budget >= old(budget) - 2 * |plan| - 6
      ensures old(budget) >= 2 * |plan| + 6 && (mac && CONFIG in live ==> live[CONFIG].File?) ==> outcome != Interrupted
    {
      var ok := CheckPlan(plan, staged, mac);
      if !ok || !checked {
        return Refused;
      }
      outcome := Note(plan, staged, mac, gid, mode);
    }

    /** The receipt and the backups for a plan that was checked. */
    method Note(plan: seq<Planned>, staged: Files, mac: bool, gid: nat, mode: nat) returns (outcome: Outcome)
      requires receipt == None && Distinct(Names(plan)) && forall p :: p in plan ==> Reviewed(live, staged, mac, p)
      modifies this`budget, this`temporary, this`backup, this`receipt
      ensures outcome != Refused && (receipt.Some? <==> outcome == Done)
      ensures Recoverable(live)
      ensures outcome == Done ==> Announces(receipt.value, plan, staged) && receipt.value.status == Prepared
      ensures outcome == Done ==> RecordedAs(receipt.value, live, gid, mode)
      ensures outcome == Done && mac ==> CONFIG in receipt.value.items && CONFIG !in Names(plan)
                                         && receipt.value.items[CONFIG].after == receipt.value.items[CONFIG].before
      ensures outcome == Done ==> budget >= old(budget) - 2 * |plan| - 6
      ensures old(budget) >= 2 * |plan| + 6 && (mac && CONFIG in live ==> live[CONFIG].File?) ==> outcome == Done
    {
      var planned := set p | p in plan :: p.name;
      var names := TrackedNames(plan, mac);
      TrackedAreDistinct(plan, mac);
      TrackedAreFiles(live, staged, plan, mac);
      var recorded := Record(names, staged, planned, gid, mode);
      if recorded.None? {
        return Interrupted;
      }
      ExpectsAnnounces(recorded.value, plan, planned, staged, mac);
      var alive := Save(recorded.value);
      outcome := if alive then Done else Interrupted;
    }

    /** What follows the installed files: on the Mac the worker's configuration, then the receipt's status. */
    method Complete(mac: bool, configured: Option<bytes>, started: bool, ghost original: Files) returns (outcome: Outcome)
      requires Recoverable(original) && receipt.Some? && receipt.value.status == Prepared
      requires mac ==> CONFIG in receipt.value.items
      requires mac ==> receipt.value.items[CONFIG].after == receipt.value.items[CONFIG].before
      modifies this
      ensures Recoverable(original) && receipt.Some? && outcome != Refused
      ensures outcome == Done ==> receipt.value.status == Installed && (mac ==> configured.Some?) && started
      ensures mac && configured.None? ==> live == old(live) && receipt == old(receipt)
      ensures receipt.value.status == Installed || receipt.value.status == Prepared
      ensures live == old(live) || (mac && SameOutside(live, old(live), [CONFIG]))
      ensures receipt.value.status == Installed ==>
                live == if !mac then old(live)
                        else var item := old(receipt).value.items[CONFIG];
                             old(live)[CONFIG := File(configured.value, item.uid, item.gid, item.mode)]
      ensures started && old(budget) >= 12 && (mac ==> configured.Some?) ==> outcome == Done
    {
      if mac {
        if configured.None? {
          return Interrupted;
        }
        var configuredOk := Configure(configured.value, original);
        if !configuredOk {
          return Interrupted;
        }
      }
      var alive := Save(receipt.value.(status := Installed));
      outcome := if alive && started then Done else Interrupted;
    }

    /**
     `apply`, with a fresh directory for the receipt and the backups. `checked`: platform and accounts are as expected.
     `stopped` and `started`: the service could be stopped, and started again. `configured` is what the probes made of the
     worker's configuration, `None` if they failed.
     */
    method Apply(plan: seq<Planned>, staged: Files, mac: bool, gid: nat, checked: bool, configured: Option<bytes>,
                 stopped: bool, started: bool) returns (outcome: Outcome)
      requires receipt == None && backup == map[]
      requires Distinct(Names(plan))
      modifies this
      ensures Recoverable(old(live))
      // Refused before anything is written.
      ensures outcome == Refused <==>
                plan == [] || !checked || exists p :: p in plan && !Reviewed(old(live), staged, mac, p)
      ensures outcome == Refused ==> live == old(live) && receipt == None && backup == map[]
      // Never anything but tracked files; nothing at all while the service may run; no configuration without probes.
      ensures SameOutside(live, old(live), TrackedNames(plan, mac))
      ensures !stopped ==> outcome != Done && live == old(live) && (receipt.Some? ==> receipt.value.status == Prepared)
      ensures mac && configured.None? ==>
                && outcome != Done && (receipt.Some? ==> receipt.value.status == Prepared)
                && (CONFIG in live <==> CONFIG in old(live)) && (CONFIG in live ==> live[CONFIG] == old(live)[CONFIG])
      ensures !started ==> outcome != Done
      // The receipt says so exactly when everything is installed.
      ensures outcome == Done ==> receipt.Some? && receipt.value.status == Installed
      ensures receipt.Some? && receipt.value.status == Installed ==>
                && stopped && checked
                && (forall p :: p in plan ==>
                      && p.name in staged && staged[p.name].File? && Digest(staged[p.name].data) == p.after
                      && Replaced(live, old(live), p.name, staged[p.name].data)
                      && (p.name !in old(live) ==>
                            live[p.name] == File(staged[p.name].data, 0, if mac then gid else 0, if mac then 416 else 420)))
                && (mac ==> configured.Some? && Replaced(live, old(live), CONFIG, configured.value))
      // Without an obstacle it is done.
      ensures outcome != Refused && stopped && started && old(budget) >= 6 * |plan| + 18 ==>
                (mac ==> configured.Some? && (CONFIG in old(live) ==> old(live)[CONFIG].File?)) ==> outcome == Done
    {
      ghost var original := live;
      ghost var group, mode := if mac then gid else 0, if mac then 0x1A0 else 0x1A4;
      outcome := Prepare(plan, staged, mac, if mac then gid else 0, if mac then 0x1A0 else 0x1A4, checked);
      if outcome != Done {
        return;
      }
      if !stopped {
        return Interrupted;
      }
      ghost var r := receipt.value;
      var alive := Install(plan, staged, original);
      NamesAreTracked(live, original, plan, mac);
      if !alive {
        return Interrupted;
      }
      ghost var installed := live;
      outcome := Complete(mac, configured, started, original);
      ConfigIsTracked(live, installed, original, plan, mac);
      if receipt.value.status == Installed {
        AppliedAsReviewed(live, installed, original, r, plan, staged, mac, configured, group, mode);
      }
    }
  }

  lemma TrackedAreFiles(live: Files, staged: Files, plan: seq<Planned>, mac: bool)
    requires forall p :: p in plan ==> Reviewed(live, staged, mac, p)
    ensures (mac && CONFIG in live ==> live[CONFIG].File?) ==> NoLinks(live, TrackedNames(plan, mac))
  {
    forall name | name in TrackedNames(plan, mac) && name in live && (mac && CONFIG in live ==> live[CONFIG].File?)
      ensures live[name].File?
    {
      var k :| 0 <= k < |TrackedNames(plan, mac)| && TrackedNames(plan, mac)[k] == name;
      if k < |plan| {
        assert plan[k] in plan && Names(plan)[k] == name;
      }
    }
  }

  lemma NamesAreTracked(live: Files, original: Files, plan: seq<Planned>, mac: bool)
    requires SameOutside(live, original, Names(plan))
    ensures SameOutside(live, original, TrackedNames(plan, mac))
  {
    forall name | name in Names(plan) ensures name in TrackedNames(plan, mac) {
    }
  }

  lemma ConfigIsTracked(live: Files, installed: Files, original: Files, plan: seq<Planned>, mac: bool)
    requires SameOutside(installed, original, Names(plan))
    requires live == installed || (mac && SameOutside(live, installed, [CONFIG]))
    ensures SameOutside(live, original, TrackedNames(plan, mac))
  {
    PlanIsTracked(plan, mac);
    forall name | name !in TrackedNames(plan, mac)
      ensures (name in live <==> name in original) && (name in live ==> live[name] == original[name])
    {
      assert name !in Names(plan);
      assert mac ==> name !in [CONFIG];
    }
  }
}
