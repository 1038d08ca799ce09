/** `server.py`: concurrent uploads of input packages under a storage budget whose directory scan is not atomic. */
module Inputs {
  import opened Common

  const BUDGET: nat := 16 * 1024 * 1024 * 1024
  const MAX_FILES: nat := 1000
  const MAX_INPUT_BYTES: nat := 512 * 1024 * 1024
  const READ_SIZE: nat := 1024 * 1024

  /** A directory entry: a published package or the temporary file of one upload. */
  datatype Name = Published(sha: Hash) | Temp(id: nat)

  /** A complete file. `os.link` gives a temporary file the name of its package as well: the bytes are stored once, as
      long as one of the two names is left. `temp` says that the name of the temporary file is. */
  datatype Inode = Inode(data: bytes, temp: bool)

  /** `Closed(linked)` still has its temporary file, `Unlinked(linked)` waits for the lock to release its reservation. */
  datatype Phase = Admitted | Writing | Closed(linked: bool) | Unlinked(linked: bool)
  {
    predicate Linked() {
      (Closed? || Unlinked?) && linked
    }
  }

  datatype Upload = Upload(sha: Hash, count: nat, received: bytes, phase: Phase)
  {
    /** The temporary file exists and is not published. */
    predicate OwnTemp() {
      phase.Writing? || phase == Closed(false)
    }
  }

  /** The reservation in progress, holding the lock. `must` are names of complete files that have been in the directory
      ever since the listing began: the listing shows them, and any others it happens to meet. `present` are the
      sizes of the files that have been there ever since, each under one of its names in `must`. */
  datatype Scan = Scan(sha: Hash, count: nat, must: set<Name>, present: map<Name, nat>,
                       listed: set<Name>, listing: bool, sizes: map<Name, nat>)

  /** `files` are the complete files, by the random number of their upload, and temporary files that outlived a crash
      of the server; `published` says which file has the name of a package. */
  datatype Server = Server(files: map<nat, Inode>, published: map<Hash, nat>, uploads: map<nat, Upload>,
                           reserved: int, scan: Option<Scan>)

  const EMPTY := Server(map[], map[], map[], 0, None)

  predicate InDirectory(s: Server, name: Name) {
    match name
    case Published(sha) => sha in s.published
    case Temp(id) => (id in s.files && s.files[id].temp) || (id in s.uploads && s.uploads[id].OwnTemp())
  }

  /** `st_size` */
  function Size(s: Server, name: Name): nat
    requires InDirectory(s, name)
  {
    match name
    case Published(sha) => if s.published[sha] in s.files then |s.files[s.published[sha]].data| else 0
    case Temp(id) => if id in s.files then |s.files[id].data| else |s.uploads[id].received|
  }

  function Sizes(files: map<nat, Inode>): map<nat, nat> {
    map id | id in files :: |files[id].data|
  }

  function Counts(uploads: map<nat, Upload>): map<nat, nat> {
    map id | id in uploads :: uploads[id].count
  }

  /** What uploads in flight may still add to the complete files. */
  function Pending(uploads: map<nat, Upload>): map<nat, nat> {
    map id | id in uploads :: if uploads[id].phase.Linked() then 0 else uploads[id].count
  }

  /** Bytes in temporary files that are being written or dropped. */
  function Partial(uploads: map<nat, Upload>): map<nat, nat> {
    map id | id in uploads :: if uploads[id].OwnTemp() then |uploads[id].received| else 0
  }

  /** All bytes in the directory. */
  ghost function Stored(s: Server): nat {
    Sum(Sizes(s.files)) + Sum(Partial(s.uploads))
  }

  /** One name of a complete file, the package's if it has that. */
  function NameOf(published: map<Hash, nat>, id: nat, data: bytes): Name {
    if Digest(data) in published && published[Digest(data)] == id then Published(Digest(data)) else Temp(id)
  }

  function Present(published: map<Hash, nat>, files: map<nat, Inode>): map<Name, nat> {
    map id | id in files :: NameOf(published, id, files[id].data) := |files[id].data|
  }

  function AllNames(s: Server): set<Name> {
    (set sha | sha in s.published :: Published(sha)) + (set id | id in s.files && s.files[id].temp :: Temp(id))
  }

  // The steps of one upload.

  /** Take the lock and begin to list the directory. */
  function Begin(s: Server, sha: Hash, count: nat): Server {
    s.(scan := Some(Scan(sha, count, AllNames(s), Present(s.published, s.files), {}, true, map[])))
  }

  function List(s: Server, name: Name): Server
    requires s.scan.Some?
  {
    s.(scan := Some(s.scan.value.(listed := s.scan.value.listed + {name})))
  }

  function EndListing(s: Server): Server
    requires s.scan.Some?
  {
    s.(scan := Some(s.scan.value.(listing := false)))
  }

  /** `p.stat()`, one file at a time */
  function Stat(s: Server, name: Name): Server
    requires s.scan.Some? && InDirectory(s, name)
  {
    s.(scan := Some(s.scan.value.(sizes := s.scan.value.sizes[name := Size(s, name)])))
  }

  ghost predicate Fits(s: Server, scan: Scan) {
    Sum(scan.sizes) + s.reserved + scan.count <= BUDGET
  }

  /** Reserve and release the lock. */
  function Admit(s: Server, id: nat): Server
    requires s.scan.Some?
  {
    var scan := s.scan.value;
    s.(uploads := s.uploads[id := Upload(scan.sha, scan.count, [], Admitted)],
       reserved := s.reserved + scan.count, scan := None)
  }

  function WithUpload(s: Server, id: nat, u: Upload): Server {
    s.(uploads := s.uploads[id := u])
  }

  /** `os.link`: from here the temporary file and the published package are one file. */
  function Link(s: Server, id: nat): Server
    requires id in s.uploads
  {
    var u := s.uploads[id];
    s.(uploads := s.uploads[id := u.(phase := Closed(true))],
       files := s.files[id := Inode(u.received, true)], published := s.published[u.sha := id])
  }

  /** A name is gone: the scan need not see it any more. */
  function Forget(scan: Option<Scan>, name: Name): Option<Scan> {
    match scan
    case None => None
    case Some(c) => Some(c.(must := c.must - {name}, present := c.present - {name}))
  }

  /** The package's name is gone, and the file is left under that of its temporary file. */
  function Renamed(scan: Option<Scan>, sha: Hash, id: nat): Option<Scan> {
    match scan
    case None => None
    case Some(c) =>
      if Published(sha) in c.present then
        Some(c.(must := c.must - {Published(sha)},
                present := (c.present - {Published(sha)})[Temp(id) := c.present[Published(sha)]]))
      else Some(c.(must := c.must - {Published(sha)}))
  }

  /** `temp.unlink` of a published upload; the file stays if it has the package's name. */
  function Unlink(s: Server, id: nat): Server
    requires id in s.uploads && id in s.files
  {
    var u := s.uploads[id];
    s.(uploads := s.uploads[id := u.(phase := Unlinked(true))],
       files := if u.sha in s.published && s.published[u.sha] == id then s.files[id := s.files[id].(temp := false)]
                else s.files - {id},
       scan := Forget(s.scan, Temp(id)))
  }

  /** The reservation is given back under the lock. */
  function Release(s: Server, id: nat): Server
    requires id in s.uploads
  {
    s.(uploads := s.uploads - {id}, reserved := s.reserved - s.uploads[id].count)
  }

  /** Another process prunes a package, without the lock; the file stays if a temporary file is a link to it. */
  function Unpublish(s: Server, sha: Hash): Server
    requires sha in s.published && s.published[sha] in s.files
  {
    var id := s.published[sha];
    if s.files[id].temp then s.(published := s.published - {sha}, scan := Renamed(s.scan, sha, id))
    else s.(published := s.published - {sha}, files := s.files - {id}, scan := Forget(s.scan, Published(sha)))
  }

  function Leftovers(uploads: map<nat, Upload>): map<nat, Inode> {
    map id | id in uploads && uploads[id].OwnTemp() :: Inode(uploads[id].received, true)
  }

  /** The server stops at any point and starts again: reservations are forgotten, temporary files stay. */
  function Crash(s: Server): Server {
    Server(s.files + Leftovers(s.uploads), s.published, map[], 0, None)
  }

  datatype Action =
    | DoBegin(sha: Hash, count: nat) | DoList(name: Name) | DoEndListing | DoStat(name: Name)
    | DoRefuse | DoAdmit(id: nat)
    | DoOpen(id: nat) | DoReceive(id: nat, data: bytes) | DoFail(id: nat)
    | DoLink(id: nat) | DoDuplicate(id: nat) | DoDrop(id: nat) | DoUnlink(id: nat) | DoRelease(id: nat)
    | DoUnpublish(sha: Hash) | DoCrash

  predicate InPhase(s: Server, id: nat, phase: Phase) {
    id in s.uploads && s.uploads[id].phase == phase
  }

  /** All bytes have arrived and their digest is the announced one. */
  predicate Verified(u: Upload) {
    u.phase.Writing? && |u.received| == u.count && Digest(u.received) == u.sha
  }

  ghost predicate Enabled(s: Server, a: Action) {
    match a
    case DoBegin(sha, count) => s.scan.None? && 0 < count <= MAX_INPUT_BYTES
    case DoList(name) => s.scan.Some? && s.scan.value.listing && InDirectory(s, name)
    case DoEndListing => s.scan.Some? && s.scan.value.listing && s.scan.value.must <= s.scan.value.listed
    case DoStat(name) =>
      s.scan.Some? && !s.scan.value.listing && InDirectory(s, name)
      && name in s.scan.value.listed && name !in s.scan.value.sizes
    case DoRefuse =>
      s.scan.Some? && !s.scan.value.listing
      && (|| |s.scan.value.listed| >= MAX_FILES
          || (exists name :: name in s.scan.value.listed && name !in s.scan.value.sizes && !InDirectory(s, name))
          || (s.scan.value.sizes.Keys == s.scan.value.listed && !Fits(s, s.scan.value)))
    case DoAdmit(id) =>
      s.scan.Some? && !s.scan.value.listing && id !in s.uploads && id !in s.files
      && |s.scan.value.listed| < MAX_FILES && s.scan.value.sizes.Keys == s.scan.value.listed && Fits(s, s.scan.value)
    case DoOpen(id) => InPhase(s, id, Admitted)
    case DoReceive(id, data) =>
      InPhase(s, id, Writing) && 0 < |data| <= READ_SIZE && |s.uploads[id].received| + |data| <= s.uploads[id].count
    case DoFail(id) => InPhase(s, id, Admitted) || InPhase(s, id, Writing)
    case DoLink(id) => id in s.uploads && Verified(s.uploads[id]) && s.uploads[id].sha !in s.published
    case DoDuplicate(id) => id in s.uploads && Verified(s.uploads[id]) && s.uploads[id].sha in s.published
    case DoDrop(id) => InPhase(s, id, Closed(false))
    case DoUnlink(id) => InPhase(s, id, Closed(true)) && id in s.files
    case DoRelease(id) => id in s.uploads && s.uploads[id].phase.Unlinked? && s.scan.None?
    case DoUnpublish(sha) => sha in s.published && s.published[sha] in s.files
    case DoCrash => true
  }

  ghost function Step(s: Server, a: Action): Server
    requires Enabled(s, a)
  {
    match a
    case DoBegin(sha, count) => Begin(s, sha, count)
    case DoList(name) => List(s, name)
    case DoEndListing => EndListing(s)
    case DoStat(name) => Stat(s, name)
    case DoRefuse => s.(scan := None)
    case DoAdmit(id) => Admit(s, id)
    case DoOpen(id) => WithUpload(s, id, s.uploads[id].(phase := Writing))
    case DoReceive(id, data) => WithUpload(s, id, s.uploads[id].(received := s.uploads[id].received + data))
    case DoFail(id) =>
      WithUpload(s, id, s.uploads[id].(phase := if s.uploads[id].OwnTemp() then Closed(false) else Unlinked(false)))
    case DoLink(id) => Link(s, id)
    case DoDuplicate(id) => WithUpload(s, id, s.uploads[id].(phase := Closed(false)))
    case DoDrop(id) => WithUpload(s, id, s.uploads[id].(phase := Unlinked(false)))
    case DoUnlink(id) => Unlink(s, id)
    case DoRelease(id) => Release(s, id)
    case DoUnpublish(sha) => Unpublish(s, sha)
    case DoCrash => Crash(s)
  }

  /** The loop that receives one upload, at most a mebibyte at a time: the temporary file's content, if all announced
      bytes arrive and have the announced digest. */
  method ReceiveUpload(body: bytes, count: nat, sha: Hash) returns (received: Option<bytes>)
    ensures received == if |body| >= count && Digest(body[..count]) == sha then Some(body[..count]) else None
  {
    var written: bytes := [];
    var remaining := count;
    while remaining > 0
      invariant 0 <= remaining && remaining + |written| == count && |written| <= |body| && written == body[..|written|]
    {
      var want := if remaining < READ_SIZE then remaining else READ_SIZE;
      var end := if |written| + want <= |body| then |written| + want else |body|;
      var data := body[|written|..end];
      if data == [] {
        return None;
      }
      written := written + data;
      remaining := remaining - |data|;
    }
    if Digest(written) != sha {
      return None;
    }
    return Some(written);
  }

  // The invariant.

  ghost predicate FilesOk(files: map<nat, Inode>, published: map<Hash, nat>) {
    && (forall sha {:trigger published[sha]} :: sha in published ==>
          published[sha] in files && Digest(files[published[sha]].data) == sha)
    && (forall id {:trigger files[id]} :: id in files && !files[id].temp ==>
          NameOf(published, id, files[id].data).Published?)
  }

  ghost predicate UploadOk(files: map<nat, Inode>, id: nat, u: Upload) {
    && |u.received| <= u.count
    && (!u.phase.Linked() ==> id !in files)
    && (u.phase == Closed(true) ==> id in files && files[id].temp && Digest(files[id].data) == u.sha)
  }

  ghost predicate UploadsOk(files: map<nat, Inode>, uploads: map<nat, Upload>) {
    forall id {:trigger uploads[id]} :: id in uploads ==> UploadOk(files, id, uploads[id])
  }

  /** `name` is the one under which the scan accounts for a file, and for its size. */
  ghost predicate Accounts(files: map<nat, Inode>, published: map<Hash, nat>, scan: Scan, name: Name)
    requires name in scan.present
  {
    && name in scan.must
    && (name in scan.sizes ==> scan.sizes[name] == scan.present[name])
    && match name
       case Published(sha) =>
         && sha in published && published[sha] in files && scan.present[name] == |files[published[sha]].data|
         && (files[published[sha]].temp ==>
               Temp(published[sha]) in scan.must
               && (Temp(published[sha]) in scan.sizes ==> scan.sizes[Temp(published[sha])] == scan.present[name]))
       case Temp(id) =>
         id in files && files[id].temp && scan.present[name] == |files[id].data| && NameOf(published, id, files[id].data) == name
  }

  ghost predicate AllAccount(files: map<nat, Inode>, published: map<Hash, nat>, scan: Scan) {
    forall name {:trigger scan.present[name]} :: name in scan.present ==> Accounts(files, published, scan, name)
  }

  /** The files that the scan need not have seen belong to uploads whose reservation is still counted. */
  ghost predicate ScanCovers(s: Server, scan: Scan) {
    && Sum(Sizes(s.files)) + Sum(Pending(s.uploads)) <= Sum(scan.present) + s.reserved
    && AllAccount(s.files, s.published, scan)
    && (!scan.listing ==> scan.must <= scan.listed)
  }

  ghost predicate Inv(s: Server) {
    && FilesOk(s.files, s.published) && UploadsOk(s.files, s.uploads)
    && s.reserved == Sum(Counts(s.uploads))
    && Sum(Sizes(s.files)) + Sum(Pending(s.uploads)) <= BUDGET
    && (s.scan.Some? ==> ScanCovers(s, s.scan.value))
  }

  /** Replacing one upload changes the sums by that upload alone. */
  lemma SumsAfter(uploads: map<nat, Upload>, id: nat, u: Upload)
    requires id in uploads
    ensures var after := uploads[id := u];
            && Sum(Counts(after)) == Sum(Counts(uploads)) - uploads[id].count + u.count
            && Sum(Pending(after)) == Sum(Pending(uploads)) - Pending(uploads)[id] + Pending(after)[id]
  {
    var after := uploads[id := u];
    SumRemove(Counts(uploads), id);
    SumRemove(Counts(after), id);
    assert Counts(uploads) - {id} == Counts(after) - {id};
    SumRemove(Pending(uploads), id);
    SumRemove(Pending(after), id);
    assert Pending(uploads) - {id} == Pending(after) - {id};
  }

  lemma SumsWith(uploads: map<nat, Upload>, id: nat, u: Upload)
    requires id !in uploads && !u.phase.Linked()
    ensures Sum(Counts(uploads[id := u])) == Sum(Counts(uploads)) + u.count
    ensures Sum(Pending(uploads[id := u])) == Sum(Pending(uploads)) + u.count
  {
    SumInsert(Counts(uploads), id, u.count);
    assert Counts(uploads[id := u]) == Counts(uploads)[id := u.count];
    SumInsert(Pending(uploads), id, u.count);
    assert Pending(uploads[id := u]) == Pending(uploads)[id := u.count];
  }

  lemma SumsWithout(uploads: map<nat, Upload>, id: nat)
    requires id in uploads
    ensures Sum(Counts(uploads - {id})) == Sum(Counts(uploads)) - uploads[id].count
    ensures Sum(Pending(uploads - {id})) == Sum(Pending(uploads)) - Pending(uploads)[id]
  {
    SumRemove(Counts(uploads), id);
    assert Counts(uploads - {id}) == Counts(uploads) - {id};
    SumRemove(Pending(uploads), id);
    assert Pending(uploads - {id}) == Pending(uploads) - {id};
  }

  lemma SizesWith(files: map<nat, Inode>, id: nat, file: Inode)
    requires id !in files
    ensures Sum(Sizes(files[id := file])) == Sum(Sizes(files)) + |file.data|
  {
    SumInsert(Sizes(files), id, |file.data|);
    assert Sizes(files[id := file]) == Sizes(files)[id := |file.data|];
  }

  lemma SizesWithout(files: map<nat, Inode>, id: nat)
    requires id in files
    ensures Sum(Sizes(files - {id})) == Sum(Sizes(files)) - |files[id].data|
  {
    SumRemove(Sizes(files), id);
    assert Sizes(files - {id}) == Sizes(files) - {id};
  }

  /** Every file has its own name, so its size is counted once. */
  lemma PresentIsAll(published: map<Hash, nat>, files: map<nat, Inode>)
    ensures Sum(Present(published, files)) == Sum(Sizes(files))
  {
    var names := map id | id in files :: NameOf(published, id, files[id].data);
    forall name | name in Present(published, files) ensures exists id {:trigger names[id]} :: id in files && names[id] == name {
      var id :| id in files && NameOf(published, id, files[id].data) == name;
      assert names[id] == name;
    }
    SumRenamed(Sizes(files), names, Present(published, files));
  }

  lemma UploadKeepsInv(s: Server, id: nat, u: Upload)
    requires Inv(s) && id in s.uploads && !s.uploads[id].phase.Linked()
    requires u.count == s.uploads[id].count && |u.received| <= u.count && !u.phase.Linked()
    ensures Inv(WithUpload(s, id, u))
  {
    SumsAfter(s.uploads, id, u);
    assert UploadOk(s.files, id, s.uploads[id]);
  }

  lemma PendingIsReserved(uploads: map<nat, Upload>)
    ensures Sum(Pending(uploads)) <= Sum(Counts(uploads))
  {
    SumSubset(Pending(uploads), Counts(uploads));
  }

  lemma BeginAccounts(s: Server, sha: Hash, count: nat)
    requires FilesOk(s.files, s.published)
    ensures AllAccount(s.files, s.published, Begin(s, sha, count).scan.value)
  {
    var scan := Begin(s, sha, count).scan.value;
    forall name | name in scan.present ensures Accounts(s.files, s.published, scan, name) {
      var id :| id in s.files && name == NameOf(s.published, id, s.files[id].data);
    }
  }

  lemma BeginCovers(s: Server, sha: Hash, count: nat)
    requires Inv(s)
    ensures ScanCovers(Begin(s, sha, count), Begin(s, sha, count).scan.value)
  {
    PendingIsReserved(s.uploads);
    PresentIsAll(s.published, s.files);
    BeginAccounts(s, sha, count);
  }

  lemma BeginKeepsInv(s: Server, sha: Hash, count: nat)
    requires Inv(s)
    ensures Inv(Begin(s, sha, count))
  {
    BeginCovers(s, sha, count);
  }

  lemma StatKeepsInv(s: Server, name: Name)
    requires Inv(s) && Enabled(s, DoStat(name))
    ensures Inv(Stat(s, name))
  {
    var scan, next := s.scan.value, Stat(s, name).scan.value;
    forall other | other in next.present ensures Accounts(s.files, s.published, next, other) {
      assert Accounts(s.files, s.published, scan, other);
    }
  }

  lemma ListKeepsInv(s: Server, a: Action)
    requires Inv(s) && Enabled(s, a) && (a.DoList? || a.DoEndListing? || a.DoRefuse?)
    ensures Inv(Step(s, a))
  {
    if !a.DoRefuse? {
      var scan, next := s.scan.value, Step(s, a).scan.value;
      forall other | other in next.present ensures Accounts(s.files, s.published, next, other) {
        assert Accounts(s.files, s.published, scan, other);
      }
    }
  }

  lemma PresentWasSeen(s: Server, scan: Scan)
    requires ScanCovers(s, scan) && !scan.listing && scan.sizes.Keys == scan.listed
    ensures Sum(scan.present) <= Sum(scan.sizes)
  {
    forall name | name in scan.present ensures name in scan.sizes && scan.present[name] <= scan.sizes[name] {
      assert Accounts(s.files, s.published, scan, name);
    }
    SumSubset(scan.present, scan.sizes);
  }

  lemma AdmitKeepsInv(s: Server, id: nat)
    requires Inv(s) && Enabled(s, DoAdmit(id))
    ensures Inv(Admit(s, id))
  {
    var scan := s.scan.value;
    PresentWasSeen(s, scan);
    SumsWith(s.uploads, id, Upload(scan.sha, scan.count, [], Admitted));
  }

  /** Linking moves an upload's bytes from pending to complete files. */
  lemma LinkMovesBytes(s: Server, id: nat)
    requires Inv(s) && Enabled(s, DoLink(id))
    ensures var t := Link(s, id);
            && Sum(Sizes(t.files)) + Sum(Pending(t.uploads)) == Sum(Sizes(s.files)) + Sum(Pending(s.uploads))
            && Sum(Counts(t.uploads)) == Sum(Counts(s.uploads))
  {
    var u := s.uploads[id];
    var linked := u.(phase := Closed(true));
    assert UploadOk(s.files, id, u);
    SumsAfter(s.uploads, id, linked);
    assert Pending(s.uploads)[id] == u.count && Pending(s.uploads[id := linked])[id] == 0;
    SizesWith(s.files, id, Inode(u.received, true));
  }

  lemma LinkKeepsFiles(s: Server, id: nat)
    requires Inv(s) && Enabled(s, DoLink(id))
    ensures var t := Link(s, id); FilesOk(t.files, t.published) && UploadsOk(t.files, t.uploads)
  {
    var t := Link(s, id);
    assert UploadOk(s.files, id, s.uploads[id]);
    forall other | other in t.uploads ensures UploadOk(t.files, other, t.uploads[other]) {
      assert UploadOk(s.files, other, s.uploads[other]);
    }
  }

  lemma LinkKeepsScan(s: Server, id: nat)
    requires Inv(s) && Enabled(s, DoLink(id)) && s.scan.Some?
    ensures AllAccount(Link(s, id).files, Link(s, id).published, s.scan.value)
  {
    var t, scan := Link(s, id), s.scan.value;
    assert UploadOk(s.files, id, s.uploads[id]);
    forall name | name in scan.present ensures Accounts(t.files, t.published, scan, name) {
      assert Accounts(s.files, s.published, scan, name);
    }
  }

  lemma LinkKeepsInv(s: Server, id: nat)
    requires Inv(s) && Enabled(s, DoLink(id))
    ensures Inv(Link(s, id))
  {
    LinkMovesBytes(s, id);
    LinkKeepsFiles(s, id);
    if s.scan.Some? {
      LinkKeepsScan(s, id);
    }
  }

  lemma ReleaseKeepsInv(s: Server, id: nat)
    requires Inv(s) && Enabled(s, DoRelease(id))
    ensures Inv(Release(s, id))
  {
    SumsWithout(s.uploads, id);
  }

  lemma ForgetSums(present: map<Name, nat>, name: Name, size: nat)
    requires name in present ==> present[name] <= size
    ensures Sum(present) <= Sum(present - {name}) + size
  {
    if name in present {
      SumRemove(present, name);
    } else {
      assert present - {name} == present;
    }
  }

  /** While a file has the package's name, the scan does not account for it under the other. */
  lemma OtherNameIsFree(s: Server, scan: Scan, sha: Hash)
    requires ScanCovers(s, scan) && FilesOk(s.files, s.published) && sha in s.published
    ensures Temp(s.published[sha]) !in scan.present
  {
    forall name | name in scan.present ensures name != Temp(s.published[sha]) {
      assert Accounts(s.files, s.published, scan, name);
    }
  }

  lemma UnlinkSums(s: Server, id: nat)
    requires Inv(s) && Enabled(s, DoUnlink(id))
    ensures var t := Unlink(s, id);
            && Sum(Counts(t.uploads)) == Sum(Counts(s.uploads)) && Sum(Pending(t.uploads)) == Sum(Pending(s.uploads))
            && Sum(Sizes(t.files)) == Sum(Sizes(s.files)) - (if id in t.files then 0 else |s.files[id].data|)
  {
    var t, u := Unlink(s, id), s.uploads[id];
    SumsAfter(s.uploads, id, u.(phase := Unlinked(true)));
    if id in t.files {
      assert Sizes(t.files) == Sizes(s.files);
    } else {
      SizesWithout(s.files, id);
    }
  }

  lemma UnlinkKeepsFiles(s: Server, id: nat)
    requires Inv(s) && Enabled(s, DoUnlink(id))
    ensures var t := Unlink(s, id); FilesOk(t.files, t.published) && UploadsOk(t.files, t.uploads)
  {
    var t := Unlink(s, id);
    assert UploadOk(s.files, id, s.uploads[id]);
    forall other | other in t.uploads ensures UploadOk(t.files, other, t.uploads[other]) {
      assert UploadOk(s.files, other, s.uploads[other]);
    }
  }

  lemma UnlinkKeepsScan(s: Server, id: nat)
    requires Inv(s) && Enabled(s, DoUnlink(id)) && s.scan.Some?
    ensures AllAccount(Unlink(s, id).files, s.published, Unlink(s, id).scan.value)
    ensures Sum(s.scan.value.present) <= Sum(Unlink(s, id).scan.value.present)
                                         + (if id in Unlink(s, id).files then 0 else |s.files[id].data|)
  {
    var t, scan := Unlink(s, id), s.scan.value;
    var next := t.scan.value;
    assert UploadOk(s.files, id, s.uploads[id]);
    if id in t.files {
      OtherNameIsFree(s, scan, s.uploads[id].sha);
      ForgetSums(scan.present, Temp(id), 0);
    } else {
      assert Temp(id) in scan.present ==> Accounts(s.files, s.published, scan, Temp(id));
      ForgetSums(scan.present, Temp(id), |s.files[id].data|);
    }
    forall name | name in next.present ensures Accounts(t.files, s.published, next, name) {
      assert Accounts(s.files, s.published, scan, name);
    }
  }

  lemma UnlinkKeepsInv(s: Server, id: nat)
    requires Inv(s) && Enabled(s, DoUnlink(id))
    ensures Inv(Unlink(s, id))
  {
    UnlinkSums(s, id);
    UnlinkKeepsFiles(s, id);
    if s.scan.Some? {
      UnlinkKeepsScan(s, id);
    }
  }

  lemma UnpublishKeepsFiles(s: Server, sha: Hash)
    requires Inv(s) && Enabled(s, DoUnpublish(sha))
    ensures var t := Unpublish(s, sha); FilesOk(t.files, t.published) && UploadsOk(t.files, t.uploads)
  {
    var t := Unpublish(s, sha);
    forall id | id in t.files && !t.files[id].temp ensures NameOf(t.published, id, t.files[id].data).Published? {
      assert NameOf(s.published, id, s.files[id].data).Published?;
    }
    forall id | id in t.uploads ensures UploadOk(t.files, id, t.uploads[id]) {
      assert UploadOk(s.files, id, s.uploads[id]);
    }
  }

  /** The last name of a file is gone. */
  lemma RemoveKeepsScan(s: Server, sha: Hash)
    requires Inv(s) && Enabled(s, DoUnpublish(sha)) && s.scan.Some? && !s.files[s.published[sha]].temp
    ensures var t := Unpublish(s, sha);
            && AllAccount(t.files, t.published, t.scan.value)
            && Sum(s.scan.value.present) <= Sum(t.scan.value.present) + |s.files[s.published[sha]].data|
  {
    var t, scan := Unpublish(s, sha), s.scan.value;
    assert Published(sha) in scan.present ==> Accounts(s.files, s.published, scan, Published(sha));
    ForgetSums(scan.present, Published(sha), |s.files[s.published[sha]].data|);
    forall name | name in t.scan.value.present ensures Accounts(t.files, t.published, t.scan.value, name) {
      assert Accounts(s.files, s.published, scan, name);
    }
  }

  /** The file stays, under its other name. */
  lemma RenameKeepsScan(s: Server, sha: Hash)
    requires Inv(s) && Enabled(s, DoUnpublish(sha)) && s.scan.Some? && s.files[s.published[sha]].temp
    ensures var t := Unpublish(s, sha);
            AllAccount(t.files, t.published, t.scan.value) && Sum(s.scan.value.present) == Sum(t.scan.value.present)
  {
    var t, scan, id := Unpublish(s, sha), s.scan.value, s.published[sha];
    var next, package, temporary := t.scan.value, Published(sha), Temp(id);
    OtherNameIsFree(s, scan, sha);
    if package in scan.present {
      assert Accounts(s.files, s.published, scan, package);
      SumRemove(scan.present, package);
      SumInsert(scan.present - {package}, temporary, scan.present[package]);
    }
    forall name | name in next.present ensures Accounts(t.files, t.published, next, name) {
      if name in scan.present {
        assert Accounts(s.files, s.published, scan, name);
      }
    }
  }

  lemma UnpublishKeepsInv(s: Server, sha: Hash)
    requires Inv(s) && Enabled(s, DoUnpublish(sha))
    ensures Inv(Unpublish(s, sha))
  {
    UnpublishKeepsFiles(s, sha);
    var id := s.published[sha];
    if s.files[id].temp {
      if s.scan.Some? {
        RenameKeepsScan(s, sha);
      }
    } else {
      SizesWithout(s.files, id);
      if s.scan.Some? {
        RemoveKeepsScan(s, sha);
      }
    }
  }

  lemma LeftoversWith(files: map<nat, Inode>, uploads: map<nat, Upload>, id: nat)
    requires id in uploads && (uploads[id].OwnTemp() ==> id !in files)
    ensures var fewer := files + Leftovers(uploads - {id});
            files + Leftovers(uploads) ==
            if uploads[id].OwnTemp() then fewer[id := Inode(uploads[id].received, true)] else fewer
    ensures uploads[id].OwnTemp() ==> id !in files + Leftovers(uploads - {id})
  {
  }

  /** The temporary files that a crash leaves behind fit into what their uploads had reserved. */
  lemma {:induction false} LeftoversFit(files: map<nat, Inode>, uploads: map<nat, Upload>)
    requires UploadsOk(files, uploads)
    ensures Sum(Sizes(files + Leftovers(uploads))) <= Sum(Sizes(files)) + Sum(Pending(uploads))
    decreases |uploads|
  {
    if uploads == map[] {
      assert files + Leftovers(uploads) == files;
    } else {
      var id :| id in uploads;
      var u, rest := uploads[id], uploads - {id};
      assert UploadOk(files, id, u);
      LeftoversFit(files, rest);
      SumsWithout(uploads, id);
      LeftoversWith(files, uploads, id);
      if u.OwnTemp() {
        SizesWith(files + Leftovers(rest), id, Inode(u.received, true));
      }
    }
  }

  lemma CrashKeepsFiles(s: Server)
    requires FilesOk(s.files, s.published) && UploadsOk(s.files, s.uploads)
    ensures FilesOk(Crash(s).files, s.published)
  {
    forall id | id in s.uploads && s.uploads[id].OwnTemp() ensures id !in s.files {
      assert UploadOk(s.files, id, s.uploads[id]);
    }
    assert forall id :: id in s.files ==> id in Crash(s).files && Crash(s).files[id] == s.files[id];
  }

  lemma CrashKeepsInv(s: Server)
    requires Inv(s)
    ensures Inv(Crash(s))
  {
    LeftoversFit(s.files, s.uploads);
    CrashKeepsFiles(s);
    assert Sum(Pending(map[])) == 0 && Sum(Counts(map[])) == 0 by {
      assert Pending(map[]) == map[] && Counts(map[]) == map[];
    }
  }

  lemma UploadStepKeepsInv(s: Server, a: Action)
    requires Inv(s) && Enabled(s, a)
    requires a.DoOpen? || a.DoReceive? || a.DoFail? || a.DoDuplicate? || a.DoDrop?
    ensures Inv(Step(s, a))
  {
    var u := s.uploads[a.id];
    assert UploadOk(s.files, a.id, u);
    var next := match a
      case DoOpen(id) => u.(phase := Writing)
      case DoReceive(id, data) => u.(received := u.received + data)
      case DoFail(id) => u.(phase := if u.OwnTemp() then Closed(false) else Unlinked(false))
      case DoDuplicate(id) => u.(phase := Closed(false))
      case _ => u.(phase := Unlinked(false));
    UploadKeepsInv(s, a.id, next);
  }

  /** Every step of the uploads, of another process that prunes, or of a crash keeps the invariant. */
  lemma StepKeepsInv(s: Server, a: Action)
    requires Inv(s) && Enabled(s, a)
    ensures Inv(Step(s, a))
  {
    match a
    case DoBegin(sha, count) => BeginKeepsInv(s, sha, count);
    case DoStat(name) => StatKeepsInv(s, name);
    case DoAdmit(id) => AdmitKeepsInv(s, id);
    case DoLink(id) => LinkKeepsInv(s, id);
    case DoUnlink(id) => UnlinkKeepsInv(s, id);
    case DoRelease(id) => ReleaseKeepsInv(s, id);
    case DoUnpublish(sha) => UnpublishKeepsInv(s, sha);
    case DoCrash => CrashKeepsInv(s);
    case DoList(_) => ListKeepsInv(s, a);
    case DoEndListing => ListKeepsInv(s, a);
    case DoRefuse => ListKeepsInv(s, a);
    case _ => UploadStepKeepsInv(s, a);
  }

  // Theorems over whole runs.

  /** `states` is a run that starts from an empty directory and takes `actions`. */
  ghost predicate IsRun(states: seq<Server>, actions: seq<Action>) {
    && |states| == |actions| + 1
    && states[0] == EMPTY
    && (forall i :: 0 <= i < |actions| ==>
          Enabled(states[i], actions[i]) && states[i + 1] == Step(states[i], actions[i]))
  }

  lemma {:induction false} RunKeepsInv(states: seq<Server>, actions: seq<Action>, i: nat)
    requires IsRun(states, actions) && i < |states|
    ensures Inv(states[i])
    decreases i
  {
    if i == 0 {
      assert Sizes(map[]) == map[] && Counts(map[]) == map[] && Pending(map[]) == map[];
    } else {
      var m := i - 1;
      RunKeepsInv(states, actions, m);
      StepKeepsInv(states[m], actions[m]);
    }
  }

  /** For every interleaving of uploads, scans, pruning and crashes: the directory never holds more than 16 GiB, the
      counter is the sum of the reservations in flight and returns to zero, and every published name holds the
      bytes it is the digest of. */
  lemma StorageBudget(states: seq<Server>, actions: seq<Action>, i: nat)
    requires IsRun(states, actions) && i < |states|
    ensures Stored(states[i]) <= BUDGET
    ensures states[i].reserved == Sum(Counts(states[i].uploads))
    ensures states[i].uploads == map[] ==> states[i].reserved == 0
    ensures forall sha {:trigger states[i].published[sha]} :: sha in states[i].published ==>
              states[i].published[sha] in states[i].files
              && Digest(states[i].files[states[i].published[sha]].data) == sha
  {
    RunKeepsInv(states, actions, i);
    var s := states[i];
    forall id | id in s.uploads ensures Partial(s.uploads)[id] <= Pending(s.uploads)[id] {
      assert UploadOk(s.files, id, s.uploads[id]);
    }
    SumSubset(Partial(s.uploads), Pending(s.uploads));
  }

  /** A published package can always be pruned, also while a temporary file that a crash left is a link to it. */
  lemma PruningIsAlwaysPossible(states: seq<Server>, actions: seq<Action>, i: nat, sha: Hash)
    requires IsRun(states, actions) && i < |states| && sha in states[i].published
    ensures Enabled(states[i], DoUnpublish(sha)) && sha !in Step(states[i], DoUnpublish(sha)).published
  {
    RunKeepsInv(states, actions, i);
  }

  /** A published package never changes; it can only be pruned. */
  lemma PublicationIsImmutable(s: Server, a: Action, sha: Hash)
    requires Inv(s) && Enabled(s, a) && sha in s.published
    ensures var t := Step(s, a);
            || a == DoUnpublish(sha)
            || (sha in t.published && t.published[sha] == s.published[sha] && t.published[sha] in t.files
                && t.files[t.published[sha]].data == s.files[s.published[sha]].data)
  {
    var id := s.published[sha];
    match a
    case DoCrash => CrashKeepsFiles(s);
    case DoLink(other) => assert UploadOk(s.files, other, s.uploads[other]);
    case DoUnlink(other) => assert UploadOk(s.files, other, s.uploads[other]);
    case _ =>
  }
}
