/** `server.py`: an input package that has room is stored, one that has not is refused, and neither leaves anything
    else behind. */
module InputsRuns {
  import opened Common
  import opened Inputs

  ghost predicate Reachable(s: Server) {
    exists states, actions :: IsRun(states, actions) && states[|states| - 1] == s
  }

  ghost predicate Follows(s: Server, a: Action, next: Server) {
    Enabled(s, a) && next == Step(s, a)
  }

  /** Consecutive states are related by the action between them. */
  ghost predicate IsChain<S(!new), A(!new)>(follows: (S, A, S) -> bool, states: seq<S>, actions: seq<A>) {
    && |states| == |actions| + 1
    && forall i :: 0 <= i < |actions| ==> follows(states[i], actions[i], states[i + 1])
  }

  lemma ChainSnoc<S(!new), A(!new)>(follows: (S, A, S) -> bool, states: seq<S>, actions: seq<A>, a: A, next: S)
    requires IsChain(follows, states, actions) && follows(states[|actions|], a, next)
    ensures IsChain(follows, states + [next], actions + [a])
  {
    var longer, more := states + [next], actions + [a];
    forall i | 0 <= i < |more| ensures follows(longer[i], more[i], longer[i + 1]) {
      if i < |actions| {
        assert follows(states[i], actions[i], states[i + 1]);
      }
    }
  }

  lemma RunIsChain(states: seq<Server>, actions: seq<Action>)
    ensures IsRun(states, actions) <==> states != [] && states[0] == EMPTY && IsChain(Follows, states, actions)
  {
    if states != [] && states[0] == EMPTY && IsChain(Follows, states, actions) {
      forall i | 0 <= i < |actions|
        ensures Enabled(states[i], actions[i]) && states[i + 1] == Step(states[i], actions[i])
      {
        assert Follows(states[i], actions[i], states[i + 1]);
      }
    }
  }

  lemma EndIsReachable(states: seq<Server>, actions: seq<Action>, s: Server)
    requires IsRun(states, actions) && states[|actions|] == s
    ensures Reachable(s)
  {
    assert states[|states| - 1] == s;
  }

  lemma RunSnoc(states: seq<Server>, actions: seq<Action>, s: Server, a: Action, next: Server)
    requires IsRun(states, actions) && states[|states| - 1] == s && Follows(s, a, next)
    ensures Reachable(next)
  {
    RunIsChain(states, actions);
    ChainSnoc(Follows, states, actions, a, next);
    RunIsChain(states + [next], actions + [a]);
    EndIsReachable(states + [next], actions + [a], next);
  }

  lemma FollowerIsReachable(s: Server, a: Action, next: Server)
    requires Reachable(s) && Follows(s, a, next)
    ensures Reachable(next)
  {
    var states, actions :| IsRun(states, actions) && states[|states| - 1] == s;
    RunSnoc(states, actions, s, a, next);
  }

  lemma ReachableStep(s: Server, a: Action)
    requires Reachable(s) && Enabled(s, a)
    ensures Reachable(Step(s, a))
  {
    FollowerIsReachable(s, a, Step(s, a));
  }

  // The directory.

  /** All names in the directory. */
  function Names(s: Server): (names: set<Name>)
    ensures forall name {:trigger name in names} :: name in names <==> InDirectory(s, name)
  {
    (set sha | sha in s.published :: Published(sha))
    + (set id | id in s.files && s.files[id].temp :: Temp(id))
    + (set id | id in s.uploads && s.uploads[id].OwnTemp() :: Temp(id))
  }

  function SizesOf(s: Server): map<Name, nat> {
    map name | name in Names(s) :: Size(s, name)
  }

  /** Fewer than a thousand names, and with what is there and what is reserved `count` bytes stay within 16 GiB. */
  ghost predicate HasRoom(s: Server, count: nat) {
    |Names(s)| < 1000 && Sum(SizesOf(s)) + s.reserved + count <= 17179869184
  }

  lemma SameDirectory(s: Server, t: Server)
    requires t == s.(scan := t.scan)
    ensures Names(t) == Names(s) && SizesOf(t) == SizesOf(s)
  {
    assert Names(t) == Names(s);
    forall name | name in Names(s) ensures Size(t, name) == Size(s, name) {
      assert InDirectory(s, name);
    }
  }

  /** A crash leaves every file in the directory, with the bytes it had. */
  lemma CrashKeepsDirectory(s: Server)
    requires Reachable(s)
    ensures Names(Crash(s)) == Names(s) && SizesOf(Crash(s)) == SizesOf(s)
    ensures Crash(s).uploads == map[] && Crash(s).reserved == 0 && Crash(s).published == s.published
  {
    var states, actions :| IsRun(states, actions) && states[|states| - 1] == s;
    RunKeepsInv(states, actions, |states| - 1);
    forall id | id in s.uploads && s.uploads[id].OwnTemp() ensures id !in s.files {
      assert UploadOk(s.files, id, s.uploads[id]);
    }
    forall sha | sha in s.published ensures s.published[sha] in s.files {
      assert Digest(s.files[s.published[sha]].data) == sha;
    }
    CrashKeepsNames(s);
    forall name | name in Names(s) ensures Size(Crash(s), name) == Size(s, name) {
      assert InDirectory(s, name);
    }
  }

  lemma CrashKeepsNames(s: Server)
    requires forall id :: id in s.uploads && s.uploads[id].OwnTemp() ==> id !in s.files
    ensures Names(Crash(s)) == Names(s)
  {
    forall name ensures name in Names(Crash(s)) <==> name in Names(s) {
      assert InDirectory(Crash(s), name) <==> InDirectory(s, name);
    }
  }

  // A reservation.

  lemma ListOne(s: Server, name: Name) returns (next: Server)
    requires Reachable(s) && s.scan.Some? && s.scan.value.listing && name in Names(s)
    ensures Reachable(next)
    ensures next == s.(scan := Some(s.scan.value.(listed := s.scan.value.listed + {name})))
  {
    assert InDirectory(s, name);
    next := Step(s, DoList(name));
    ReachableStep(s, DoList(name));
  }

  lemma {:induction false} ListAll(s: Server) returns (next: Server)
    requires Reachable(s) && s.scan.Some? && s.scan.value.listing && s.scan.value.listed <= Names(s)
    ensures Reachable(next)
    ensures next == s.(scan := Some(s.scan.value.(listed := Names(s))))
    decreases Names(s) - s.scan.value.listed
  {
    if name :| name in Names(s) && name !in s.scan.value.listed {
      var one := ListOne(s, name);
      SameDirectory(s, one);
      next := ListAll(one);
    } else {
      next := s;
      assert s.scan.value.listed == Names(s);
    }
  }

  /** The names in `names` have been looked at, and no others. */
  ghost predicate Sized(s: Server, names: set<Name>)
  {
    && s.scan.Some? && names <= Names(s)
    && s.scan.value.sizes.Keys == names
    && forall name {:trigger s.scan.value.sizes[name]} :: name in names ==> s.scan.value.sizes[name] == SizesOf(s)[name]
  }

  lemma StatOne(s: Server, names: set<Name>, name: Name) returns (next: Server)
    requires Reachable(s) && Sized(s, names) && !s.scan.value.listing && s.scan.value.listed == Names(s)
    requires name in Names(s) && name !in names
    ensures Reachable(next) && Sized(next, names + {name}) && next == s.(scan := next.scan)
    ensures next.scan.value == s.scan.value.(sizes := next.scan.value.sizes)
  {
    next := LookAt(s, name);
    SameDirectory(s, next);
  }

  lemma LookAt(s: Server, name: Name) returns (next: Server)
    requires Reachable(s) && s.scan.Some? && !s.scan.value.listing && name in s.scan.value.listed
    requires name in Names(s) && name !in s.scan.value.sizes
    ensures Reachable(next)
    ensures next == s.(scan := Some(s.scan.value.(sizes := s.scan.value.sizes[name := SizesOf(s)[name]])))
  {
    assert InDirectory(s, name);
    next := Step(s, DoStat(name));
    ReachableStep(s, DoStat(name));
  }

  lemma {:induction false} StatAll(s: Server, names: set<Name>) returns (next: Server)
    requires Reachable(s) && Sized(s, names) && !s.scan.value.listing && s.scan.value.listed == Names(s)
    ensures Reachable(next) && next.scan.Some? && next == s.(scan := next.scan)
    ensures next.scan.value == s.scan.value.(sizes := SizesOf(s))
    decreases Names(s) - names
  {
    if name :| name in Names(s) && name !in names {
      var one := StatOne(s, names, name);
      SameDirectory(s, one);
      next := StatAll(one, names + {name});
    } else {
      next := s;
      assert names == Names(s);
      assert s.scan.value.sizes == SizesOf(s);
    }
  }

  /** A scan that nothing interferes with sees every name, with its size. */
  ghost predicate Scanned(s: Server, scanned: Server, sha: Hash, count: nat) {
    && scanned.scan.Some? && scanned == s.(scan := scanned.scan)
    && var scan := scanned.scan.value;
       && scan.sha == sha && scan.count == count && !scan.listing
       && scan.listed == Names(s) && scan.sizes == SizesOf(s)
  }

  /** The scan has begun, and later its listing has ended. */
  ghost predicate Begun(s: Server, begun: Server, sha: Hash, count: nat, listing: bool) {
    && begun.scan.Some? && begun == s.(scan := begun.scan)
    && var scan := begun.scan.value;
       && scan.sha == sha && scan.count == count && scan.listing == listing && scan.must <= Names(s)
       && scan.listed == (if listing then {} else Names(s)) && scan.sizes == map[]
  }

  lemma BeginRound(s: Server, sha: Hash, count: nat) returns (begun: Server)
    requires Reachable(s) && s.scan.None? && 0 < count <= 536870912
    ensures Reachable(begun) && Begun(s, begun, sha, count, true)
  {
    begun := Step(s, DoBegin(sha, count));
    ReachableStep(s, DoBegin(sha, count));
    assert begun.scan.value.must <= Names(s);
  }

  lemma ListRound(s: Server, begun: Server, sha: Hash, count: nat) returns (ended: Server)
    requires Reachable(begun) && Begun(s, begun, sha, count, true)
    ensures Reachable(ended) && Begun(s, ended, sha, count, false)
  {
    SameDirectory(s, begun);
    var listed := ListAll(begun);
    ended := Step(listed, DoEndListing);
    ReachableStep(listed, DoEndListing);
  }

  lemma ScanRound(s: Server, sha: Hash, count: nat) returns (scanned: Server)
    requires Reachable(s) && s.scan.None? && 0 < count <= 536870912
    ensures Reachable(scanned) && Scanned(s, scanned, sha, count)
  {
    var begun := BeginRound(s, sha, count);
    var ended := ListRound(s, begun, sha, count);
    SameDirectory(s, ended);
    scanned := StatAll(ended, {});
  }

  /** Without interference the reservation is granted exactly if there is room. */
  lemma ReservationIsExact(s: Server, scanned: Server, sha: Hash, count: nat, id: nat)
    requires Scanned(s, scanned, sha, count) && id !in s.uploads && id !in s.files
    ensures Enabled(scanned, DoAdmit(id)) <==> HasRoom(s, count)
    ensures Enabled(scanned, DoRefuse) <==> !HasRoom(s, count)
    ensures !HasRoom(s, count) ==> Step(scanned, DoRefuse) == s.(scan := None)
  {
    var scan := scanned.scan.value;
    assert scan.sizes.Keys == scan.listed;
    assert forall name :: name in scan.listed ==> name in scan.sizes;
  }

  // An upload.

  lemma {:induction false} ReceiveAll(s: Server, id: nat, data: bytes) returns (next: Server)
    requires Reachable(s) && id in s.uploads && s.uploads[id].phase == Writing
    requires |s.uploads[id].received| + |data| <= s.uploads[id].count
    ensures Reachable(next)
    ensures next == s.(uploads := s.uploads[id := s.uploads[id].(received := s.uploads[id].received + data)])
    decreases |data|
  {
    var u := s.uploads[id];
    if data == [] {
      next := s;
      assert u.received + data == u.received;
      assert s.uploads[id := u] == s.uploads;
    } else {
      var n := if |data| < READ_SIZE then |data| else READ_SIZE;
      var one := Step(s, DoReceive(id, data[..n]));
      ReachableStep(s, DoReceive(id, data[..n]));
      next := ReceiveAll(one, id, data[n..]);
      assert u.received + data[..n] + data[n..] == u.received + data;
    }
  }

  /** Announced, received, verified: the upload `id` of these bytes, before it is closed. */
  ghost predicate Arrived(s: Server, arrived: Server, id: nat, data: bytes) {
    && id !in s.uploads && id !in s.files
    && arrived == s.(uploads := s.uploads[id := Upload(Digest(data), |data|, data, Writing)],
                     reserved := s.reserved + |data|)
  }

  lemma OpenRound(s: Server, scanned: Server, id: nat, sha: Hash, count: nat) returns (open: Server)
    requires Reachable(scanned) && s.scan.None? && Scanned(s, scanned, sha, count)
    requires id !in s.uploads && id !in s.files && HasRoom(s, count)
    ensures Reachable(open)
    ensures open == s.(uploads := s.uploads[id := Upload(sha, count, [], Writing)], reserved := s.reserved + count)
  {
    var admitted := AdmitRound(s, scanned, id, sha, count);
    open := Step(admitted, DoOpen(id));
    ReachableStep(admitted, DoOpen(id));
  }

  lemma AdmitRound(s: Server, scanned: Server, id: nat, sha: Hash, count: nat) returns (admitted: Server)
    requires Reachable(scanned) && s.scan.None? && Scanned(s, scanned, sha, count)
    requires id !in s.uploads && id !in s.files && HasRoom(s, count)
    ensures Reachable(admitted)
    ensures admitted == s.(uploads := s.uploads[id := Upload(sha, count, [], Admitted)], reserved := s.reserved + count)
  {
    ReservationIsExact(s, scanned, sha, count, id);
    admitted := Step(scanned, DoAdmit(id));
    ReachableStep(scanned, DoAdmit(id));
  }

  lemma ArriveRound(s: Server, scanned: Server, id: nat, data: bytes) returns (arrived: Server)
    requires Reachable(scanned) && s.scan.None? && Scanned(s, scanned, Digest(data), |data|)
    requires id !in s.uploads && id !in s.files && HasRoom(s, |data|)
    ensures Reachable(arrived) && Arrived(s, arrived, id, data)
  {
    var open := OpenRound(s, scanned, id, Digest(data), |data|);
    arrived := ReceiveAll(open, id, data);
    assert [] + data == data;
    assert arrived.uploads == s.uploads[id := Upload(Digest(data), |data|, data, Writing)];
  }

  lemma PublishRound(s: Server, arrived: Server, id: nat, data: bytes) returns (next: Server)
    requires Reachable(arrived) && s.scan.None? && Arrived(s, arrived, id, data) && Digest(data) !in s.published
    ensures Reachable(next)
    ensures next == s.(files := s.files[id := Inode(data, false)], published := s.published[Digest(data) := id])
  {
    var linked := Step(arrived, DoLink(id));
    ReachableStep(arrived, DoLink(id));
    var unlinked := Step(linked, DoUnlink(id));
    ReachableStep(linked, DoUnlink(id));
    assert unlinked.files == s.files[id := Inode(data, false)];
    next := ReleaseRound(s, unlinked, id, |data|);
  }

  lemma ReleaseRound(s: Server, unlinked: Server, id: nat, count: nat) returns (next: Server)
    requires Reachable(unlinked) && unlinked.scan.None? && id !in s.uploads
    requires id in unlinked.uploads && unlinked.uploads[id].phase.Unlinked? && unlinked.uploads[id].count == count
    requires unlinked.uploads - {id} == s.uploads && unlinked.reserved == s.reserved + count
    ensures Reachable(next) && next == unlinked.(uploads := s.uploads, reserved := s.reserved)
  {
    next := Step(unlinked, DoRelease(id));
    ReachableStep(unlinked, DoRelease(id));
  }

  lemma DuplicateRound(s: Server, arrived: Server, id: nat, data: bytes) returns (next: Server)
    requires Reachable(arrived) && s.scan.None? && Arrived(s, arrived, id, data) && Digest(data) in s.published
    ensures Reachable(next) && next == s
  {
    var closed := Step(arrived, DoDuplicate(id));
    ReachableStep(arrived, DoDuplicate(id));
    var dropped := Step(closed, DoDrop(id));
    ReachableStep(closed, DoDrop(id));
    next := ReleaseRound(s, dropped, id, |data|);
  }

  /** In any reachable state in which nobody holds the lock, a package that has room can be uploaded: it is published
      with exactly its bytes, or was already, and no reservation and no temporary file remain of the upload. */
  lemma UploadCompletes(s: Server, id: nat, data: bytes) returns (next: Server)
    requires Reachable(s) && s.scan.None? && 0 < |data| <= 536870912 && HasRoom(s, |data|)
    requires id !in s.uploads && id !in s.files
    ensures Reachable(next)
    ensures next == if Digest(data) in s.published then s
                    else s.(files := s.files[id := Inode(data, false)], published := s.published[Digest(data) := id])
    ensures Digest(data) in next.published && next.published[Digest(data)] in next.files
    ensures next.files[next.published[Digest(data)]].data == data
  {
    var scanned := ScanRound(s, Digest(data), |data|);
    var arrived := ArriveRound(s, scanned, id, data);
    if Digest(data) in s.published {
      next := DuplicateRound(s, arrived, id, data);
    } else {
      next := PublishRound(s, arrived, id, data);
    }
    var states, actions :| IsRun(states, actions) && states[|states| - 1] == next;
    RunKeepsInv(states, actions, |states| - 1);
    assert Digest(next.files[next.published[Digest(data)]].data) == Digest(data);
  }
}
