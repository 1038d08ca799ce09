/** `macqueue/sources.py`: source packages, at the level of archive members and of the length of their tar stream. */
module Sources {
  import opened Common

  const MAX_INPUT_BYTES: nat := 512 * 1024 * 1024
  const MAX_EXPANDED_BYTES: nat := 4 * 1024 * 1024 * 1024
  const MAX_FILES: nat := 100000
  const MAX_MANIFEST_BYTES: nat := 65536

  /** A path as its components. */
  type Name = seq<string>

  datatype Node = Dir | File(data: bytes, executable: bool)

  type Tree = map<Name, Node>

  /** `data` is what the stream holds for the member; `size` is what its header says. */
  datatype Member = Member(name: Name, size: int, data: bytes, kind: Kind, executable: bool)

  /** `Link` is a hard link to an earlier member. */
  datatype Kind = RegularFile | Directory | Link(target: Name) | OtherKind

  /** `compressed` is the length of the file, `expanded` how much of the tar stream in it is read up to its end mark. */
  datatype Archive = Archive(members: seq<Member>, compressed: nat, expanded: int)

  datatype Manifest = Manifest(version: int, project: string, revisions: map<string, string>, bundle: Hash)

  /** How a manifest is written as JSON and read back; `decode` fails unless there are exactly the four keys. */
  datatype Codec = Codec(encode: Manifest -> bytes, decode: bytes -> Option<Manifest>)
  {
    ghost predicate RoundTrips() {
      forall m {:trigger encode(m)} :: decode(encode(m)) == Some(m)
    }
  }

  const MANIFEST: Name := ["manifest.json"]
  const BUNDLE: Name := ["source.bundle"]
  const VENDOR: Name := ["vendor"]

  // `relative`

  predicate IsComponent(c: string) {
    && c != "" && c != "." && c != ".."
    && (forall i :: 0 <= i < |c| ==> c[i] != '/' && c[i] != '\\' && c[i] != '\0' && c[i] != '\n' && c[i] != '\r')
    && (forall i :: 0 <= i < |c| - 1 && c[i] == '$' ==> c[i + 1] != '{')
  }

  /** The components with slashes between them. */
  function Text(name: Name): string {
    if |name| <= 1 then (if name == [] then "" else name[0])
    else Text(name[..|name| - 1]) + "/" + name[|name| - 1]
  }

  predicate IsRelative(name: Name) {
    && name != [] && |Text(name)| <= 512
    && forall i :: 0 <= i < |name| ==> IsComponent(name[i])
  }

  // `unpack`

  datatype Unpacking = Unpacking(seen: set<Name>, total: int, tree: Tree)

  const NOTHING := Unpacking({}, 0, map[])

  /** `mkdir(parents=True, exist_ok=True)`: an error if something on the way is not a directory. */
  function MakeDirs(tree: Tree, name: Name): Option<Tree> {
    if name == [] then Some(tree)
    else
      match MakeDirs(tree, name[..|name| - 1])
      case None => None
      case Some(t) =>
        if name !in t then Some(t[name := Dir]) else if t[name].Dir? then Some(t) else None
  }

  /** Create a file that must not exist, and the directories above it. */
  function MakeFile(tree: Tree, name: Name, file: Node): Option<Tree>
    requires name != []
  {
    match MakeDirs(tree, name[..|name| - 1])
    case None => None
    case Some(t) => if name in t then None else Some(t[name := file])
  }

  predicate IsExpected(name: Name) {
    name == MANIFEST || name == BUNDLE || (name != [] && name[0] == "vendor")
  }

  predicate Admissible(u: Unpacking, m: Member) {
    && |u.seen| < MAX_FILES
    && IsRelative(m.name) && m.name !in u.seen && IsExpected(m.name)
    && (m.kind.RegularFile? || m.kind.Directory?)
    && 0 <= m.size <= MAX_INPUT_BYTES
    && u.total + m.size <= MAX_EXPANDED_BYTES
  }

  function Made(tree: Tree, m: Member): Option<Tree>
    requires m.name != [] && m.size >= 0
  {
    if m.kind.Directory? then (if m.size == 0 then MakeDirs(tree, m.name) else None)
    else if |m.data| < m.size then None
    else MakeFile(tree, m.name, File(m.data[..m.size], m.executable))
  }

  function Extracted(u: Unpacking, m: Member): Option<Unpacking> {
    if !Admissible(u, m) then None
    else
      match Made(u.tree, m)
      case None => None
      case Some(tree) => Some(Unpacking(u.seen + {m.name}, u.total + m.size, tree))
  }

  function ExtractedAll(u: Unpacking, members: seq<Member>): Option<Unpacking> {
    if members == [] then Some(u)
    else
      match ExtractedAll(u, members[..|members| - 1])
      case None => None
      case Some(before) => Extracted(before, members[|members| - 1])
  }

  predicate IsHex(s: string, length: nat) {
    |s| == length && forall i :: 0 <= i < |s| ==> 'a' <= s[i] <= 'f' || '0' <= s[i] <= '9'
  }

  /** What is required of a manifest, next to the bundle that it describes. */
  predicate IsValid(m: Manifest, bundle: bytes) {
    && m.version == 1
    && 1 <= |m.revisions| <= 4
    && (forall commit :: commit in m.revisions ==> IsHex(commit, 40) && IsHex(m.revisions[commit], 64))
    && m.bundle == Digest(bundle)
  }

  function Checked(tree: Tree, codec: Codec): Option<Manifest> {
    if MANIFEST !in tree || !tree[MANIFEST].File? || |tree[MANIFEST].data| > MAX_MANIFEST_BYTES then None
    else
      match codec.decode(tree[MANIFEST].data)
      case None => None
      case Some(m) =>
        if && BUNDLE in tree && tree[BUNDLE].File? && IsValid(m, tree[BUNDLE].data)
           && VENDOR in tree && tree[VENDOR].Dir?
        then Some(m) else None
  }

  function Unpacked(a: Archive, codec: Codec): Option<(Tree, Manifest)> {
    if a.compressed > MAX_INPUT_BYTES || a.expanded > MAX_EXPANDED_BYTES then None
    else
      match ExtractedAll(NOTHING, a.members)
      case None => None
      case Some(u) =>
        match Checked(u.tree, codec)
        case None => None
        case Some(m) => Some((u.tree, m))
  }

  /** Copy one member's data, at most a mebibyte at a time. */
  method CopyData(m: Member) returns (out: Option<bytes>)
    requires 0 <= m.size
    ensures out == if |m.data| < m.size then None else Some(m.data[..m.size])
  {
    var written: bytes := [];
    while |written| < m.size
      invariant |written| <= m.size && |written| <= |m.data| && written == m.data[..|written|]
      decreases m.size - |written|
    {
      var want := if m.size - |written| < 1024 * 1024 then m.size - |written| else 1024 * 1024;
      var end := if |written| + want <= |m.data| then |written| + want else |m.data|;
      var data := m.data[|written|..end];
      if data == [] {
        return None;
      }
      written := written + data;
    }
    return Some(written);
  }

  lemma {:induction false} ExtractedPrefix(u: Unpacking, members: seq<Member>, i: nat)
    requires i <= |members| && ExtractedAll(u, members[..i]).None?
    ensures ExtractedAll(u, members).None?
    decreases |members|
  {
    if i == |members| {
      assert members[..i] == members;
    } else {
      var init := members[..|members| - 1];
      assert init[..i] == members[..i];
      ExtractedPrefix(u, init, i);
    }
  }

  method Extract(u: Unpacking, m: Member) returns (r: Option<Unpacking>)
    ensures r == Extracted(u, m)
  {
    if !Admissible(u, m) {
      return None;
    }
    var tree;
    if m.kind.Directory? {
      if m.size != 0 {
        return None;
      }
      tree := MakeDirs(u.tree, m.name);
    } else {
      var data := CopyData(m);
      if data.None? {
        return None;
      }
      tree := MakeFile(u.tree, m.name, File(data.value, m.executable));
    }
    if tree.None? {
      return None;
    }
    return Some(Unpacking(u.seen + {m.name}, u.total + m.size, tree.value));
  }

  method Unpack(a: Archive, codec: Codec) returns (r: Option<(Tree, Manifest)>)
    ensures r == Unpacked(a, codec)
  {
    if a.compressed > MAX_INPUT_BYTES || a.expanded > MAX_EXPANDED_BYTES {
      return None;
    }
    var u := NOTHING;
    var i := 0;
    while i < |a.members|
      invariant i <= |a.members| && ExtractedAll(NOTHING, a.members[..i]) == Some(u)
    {
      assert a.members[..i + 1][..i] == a.members[..i];
      var next := Extract(u, a.members[i]);
      if next.None? {
        ExtractedPrefix(NOTHING, a.members, i + 1);
        return None;
      }
      u := next.value;
      i := i + 1;
    }
    assert a.members[..i] == a.members;
    var m := Checked(u.tree, codec);
    if m.None? {
      return None;
    }
    return Some((u.tree, m.value));
  }

  // The tar stream in the pax format, as Python's `tarfile` writes and reads it.

  /** Headers and data fill blocks of 512 bytes. */
  function Padded(n: int): int {
    (n + 511) / 512 * 512
  }

  /** The stream is read in records of 20 blocks. */
  function Records(n: int): int {
    (n + 10239) / 10240 * 10240
  }

  /** The length of an extended header record whose text takes `l` bytes: the number in front of it counts its own
      digits, `digits` of them or more. */
  function RecordLength(l: nat, digits: nat): nat
    decreases l + digits - Tens(digits)
  {
    if l + digits < Tens(digits) then l + digits
    else
      TensGrow(digits);
      RecordLength(l, digits + 1)
  }

  lemma TensGrow(k: nat)
    ensures Tens(k + 1) > Tens(k) + 1
  {
    TensPositive(k);
  }

  lemma {:induction false} TensPositive(k: nat)
    ensures Tens(k) > 0
  {
    if k > 0 {
      TensPositive(k - 1);
    }
  }

  predicate IsAscii(text: string) {
    forall i :: 0 <= i < |text| ==> text[i] as int < 128
  }

  /** What a path takes in the extended header: nothing if it fits into the header itself. */
  function PaxRecord(keyword: string, text: string): nat {
    if |text| <= 100 && IsAscii(text) then 0 else RecordLength(|keyword| + Utf8(text) + 3, 1)
  }

  /** The path as the header spells it. */
  function HeaderText(m: Member): string {
    if m.kind.Directory? then Text(m.name) + "/" else Text(m.name)
  }

  function PaxLength(m: Member): nat {
    PaxRecord("path", HeaderText(m)) + if m.kind.Link? then PaxRecord("linkpath", Text(m.kind.target)) else 0
  }

  /** The extended header with a header of its own, the header, and the data. */
  function MemberLength(m: Member): int {
    (if PaxLength(m) == 0 then 0 else 512 + Padded(PaxLength(m))) + 512 + Padded(m.size)
  }

  function Lengths(members: seq<Member>): seq<int> {
    seq(|members|, i requires 0 <= i < |members| => MemberLength(members[i]))
  }

  function Total(ns: seq<int>): int {
    if ns == [] then 0 else Total(ns[..|ns| - 1]) + ns[|ns| - 1]
  }

  /** How much is read until the first block of the end mark has been seen. */
  function Expanded(members: seq<Member>): int {
    Records(Total(Lengths(members)) + 512)
  }

  // `package`

  /** What a path is: `inode` stands for the numbers of the file and its device, `links` is `st_nlink`. */
  datatype Item = ItemDir | ItemFile(data: bytes, executable: bool, inode: nat, links: nat) | ItemOther

  /** A path below the vendor directory, or the directory itself with the path []. */
  datatype Entry = Entry(path: Name, item: Item)

  /** The Git bundle, and its path below the vendor directory if `package` finds it there again. */
  datatype Bundle = Bundle(item: Item, below: Option<Name>)

  /** `[vendor, *sorted(vendor.rglob('*'))]`: distinct paths, each after the directory it is in. */
  ghost predicate IsListing(listing: seq<Entry>) {
    && DistinctPaths(listing)
    && forall i :: 0 <= i < |listing| && listing[i].path != [] ==> HasParent(listing, i)
  }

  ghost predicate DistinctPaths(listing: seq<Entry>) {
    forall i, j :: 0 <= i < j < |listing| ==> listing[i].path != listing[j].path
  }

  ghost predicate HasParent(listing: seq<Entry>, i: nat)
    requires i < |listing| && listing[i].path != []
  {
    exists j :: 0 <= j < i && listing[j] == Entry(listing[i].path[..|listing[i].path| - 1], ItemDir)
  }

  function FileSize(item: Item): nat {
    if item.ItemFile? then |item.data| else 0
  }

  function TotalSize(listing: seq<Entry>): nat {
    if listing == [] then 0 else TotalSize(listing[..|listing| - 1]) + FileSize(listing[|listing| - 1].item)
  }

  /** A path on the way through the tree, with the name it gets in the archive. */
  datatype Named = Named(name: Name, item: Item)

  /** The bundle's path has the bundle's name, also where it is met below the vendor directory. */
  function NameIn(bundle: Bundle, path: Name): Name {
    if bundle.below == Some(path) then BUNDLE else VENDOR + path
  }

  function Walk(bundle: Bundle, listing: seq<Entry>): seq<Named> {
    [Named(BUNDLE, bundle.item)] +
    seq(|listing|, i requires 0 <= i < |listing| => Named(NameIn(bundle, listing[i].path), listing[i].item))
  }

  predicate Packable(n: Named) {
    !n.item.ItemOther? && IsRelative(n.name)
  }

  /** `gettarinfo`: a file with several links that was already archived under another name becomes a link to that. */
  function MemberOf(inodes: map<nat, Name>, n: Named): Member {
    match n.item
    case ItemFile(data, executable, inode, links) =>
      if links > 1 && inode in inodes && inodes[inode] != n.name then
        Member(n.name, 0, [], Link(inodes[inode]), executable)
      else Member(n.name, |data|, data, RegularFile, executable)
    case _ => Member(n.name, 0, [], Directory, true)
  }

  /** Under which name the archive has each file. */
  function Recorded(inodes: map<nat, Name>, n: Named): map<nat, Name> {
    if n.item.ItemFile? && MemberOf(inodes, n).kind.RegularFile? then inodes[n.item.inode := n.name] else inodes
  }

  function Inodes(walk: seq<Named>): map<nat, Name> {
    if walk == [] then map[] else Recorded(Inodes(walk[..|walk| - 1]), walk[|walk| - 1])
  }

  function WalkMembers(walk: seq<Named>): seq<Member> {
    seq(|walk|, i requires 0 <= i < |walk| => MemberOf(Inodes(walk[..i]), walk[i]))
  }

  function ManifestMember(codec: Codec, manifest: Manifest): Member {
    Member(MANIFEST, |codec.encode(manifest)|, codec.encode(manifest), RegularFile, false)
  }

  function Members(codec: Codec, manifest: Manifest, walk: seq<Named>): seq<Member> {
    [ManifestMember(codec, manifest)] + WalkMembers(walk)
  }

  predicate AllPackable(walk: seq<Named>) {
    forall i :: 0 <= i < |walk| ==> Packable(walk[i])
  }

  lemma WalkMembersNext(walk: seq<Named>, i: nat)
    requires i < |walk|
    ensures WalkMembers(walk)[..i + 1] == WalkMembers(walk)[..i] + [MemberOf(Inodes(walk[..i]), walk[i])]
    ensures Inodes(walk[..i + 1]) == Recorded(Inodes(walk[..i]), walk[i])
  {
    assert walk[..i + 1][..i] == walk[..i];
  }

  /** The loop over the paths; `members` has the manifest. */
  method AddAll(first: Member, walk: seq<Named>) returns (r: Option<seq<Member>>)
    ensures r == if AllPackable(walk) then Some([first] + WalkMembers(walk)) else None
  {
    var members, inodes := [first], map[];
    var i := 0;
    while i < |walk|
      invariant i <= |walk| && inodes == Inodes(walk[..i])
      invariant members == [first] + WalkMembers(walk)[..i]
      invariant forall k :: 0 <= k < i ==> Packable(walk[k])
    {
      if !Packable(walk[i]) {
        return None;
      }
      WalkMembersNext(walk, i);
      members := members + [MemberOf(inodes, walk[i])];
      inodes := Recorded(inodes, walk[i]);
      i := i + 1;
    }
    assert WalkMembers(walk)[..i] == WalkMembers(walk);
    return Some(members);
  }

  /** `package`, on a tree that does not change meanwhile; `compressed` stands for what gzip makes of the stream. */
  method Package(codec: Codec, manifest: Manifest, bundle: Bundle, listing: seq<Entry>, compressed: nat)
      returns (r: Option<Archive>)
    requires listing != []
    ensures r == Packaged(codec, manifest, bundle, listing, compressed)
  {
    if |listing| >= MAX_FILES || FileSize(bundle.item) + TotalSize(listing[1..]) > MAX_EXPANDED_BYTES {
      return None;
    }
    var members := AddAll(ManifestMember(codec, manifest), Walk(bundle, listing));
    if members.None? || compressed > MAX_INPUT_BYTES {
      return None;
    }
    return Some(Archive(members.value, compressed, Expanded(members.value)));
  }

  /** What `package` makes of a tree. */
  function Packaged(codec: Codec, manifest: Manifest, bundle: Bundle, listing: seq<Entry>, compressed: nat)
      : Option<Archive>
    requires listing != []
  {
    if && |listing| < MAX_FILES && FileSize(bundle.item) + TotalSize(listing[1..]) <= MAX_EXPANDED_BYTES
       && AllPackable(Walk(bundle, listing)) && compressed <= MAX_INPUT_BYTES
    then
      var members := Members(codec, manifest, Walk(bundle, listing));
      Some(Archive(members, compressed, Expanded(members)))
    else None
  }
}
