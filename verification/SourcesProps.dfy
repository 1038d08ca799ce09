/** What an accepted source package is, and exactly when packing and unpacking gives everything back. */
module SourcesProps {
  import opened Common
  import opened Sources

  // What `unpack` accepts.

  function SizeSum(members: seq<Member>): int {
    if members == [] then 0 else SizeSum(members[..|members| - 1]) + members[|members| - 1].size
  }

  /** The member is in the tree, with its own bytes. */
  predicate Holds(tree: Tree, m: Member) {
    && m.name in tree
    && if m.kind.Directory? then tree[m.name].Dir?
       else 0 <= m.size <= |m.data| && tree[m.name] == File(m.data[..m.size], m.executable)
  }

  predicate IsPrefix(a: Name, b: Name) {
    |a| <= |b| && b[..|a|] == a
  }

  /** `name` is a member, or a directory above one. */
  ghost predicate Comes(tree: Tree, name: Name, members: seq<Member>)
    requires name in tree
  {
    exists i :: 0 <= i < |members| &&
      (members[i].name == name || (IsPrefix(name, members[i].name) && tree[name].Dir?))
  }

  ghost predicate DistinctNames(members: seq<Member>) {
    forall i, j :: 0 <= i < j < |members| ==> members[i].name != members[j].name
  }

  predicate MemberFits(m: Member) {
    && IsRelative(m.name) && IsExpected(m.name) && 0 <= m.size <= MAX_INPUT_BYTES
    && (m.kind.RegularFile? || m.kind.Directory?)
  }

  ghost predicate WithinLimits(members: seq<Member>) {
    forall i {:trigger MemberFits(members[i])} :: 0 <= i < |members| ==> MemberFits(members[i])
  }

  ghost predicate SeenAre(seen: set<Name>, members: seq<Member>) {
    |seen| == |members| && forall name :: name in seen <==> exists i :: 0 <= i < |members| && members[i].name == name
  }

  ghost predicate TreeIs(tree: Tree, members: seq<Member>) {
    && (forall i :: 0 <= i < |members| ==> Holds(tree, members[i]))
    && (forall name :: name in tree ==> Comes(tree, name, members))
  }

  /** Making directories only adds directories above or at `name`. */
  lemma {:induction false} MakeDirsAdds(tree: Tree, name: Name)
    requires MakeDirs(tree, name).Some?
    ensures var t := MakeDirs(tree, name).value;
            && (forall n :: n in tree ==> n in t && t[n] == tree[n])
            && (forall n :: n in t && n !in tree ==> t[n].Dir? && IsPrefix(n, name))
            && (name != [] ==> name in t && t[name].Dir?)
  {
    if name != [] {
      MakeDirsAdds(tree, name[..|name| - 1]);
      var t := MakeDirs(tree, name).value;
      forall n | n in t && n !in tree ensures t[n].Dir? && IsPrefix(n, name) {
        if n != name {
          assert IsPrefix(n, name[..|name| - 1]);
          assert name[..|n|] == name[..|name| - 1][..|n|];
        }
      }
    }
  }

  lemma ExtractedAdds(u: Unpacking, m: Member)
    requires Extracted(u, m).Some?
    ensures var t := Extracted(u, m).value.tree;
            && (forall n :: n in u.tree ==> n in t && t[n] == u.tree[n])
            && (forall n :: n in t && n !in u.tree && n != m.name ==> t[n].Dir? && IsPrefix(n, m.name))
            && Holds(t, m)
  {
    if m.kind.Directory? {
      MakeDirsAdds(u.tree, m.name);
    } else {
      var parent := m.name[..|m.name| - 1];
      MakeDirsAdds(u.tree, parent);
      var t := Extracted(u, m).value.tree;
      forall n | n in t && n !in u.tree && n != m.name ensures t[n].Dir? && IsPrefix(n, m.name) {
        assert IsPrefix(n, parent);
        assert m.name[..|n|] == parent[..|n|];
      }
    }
  }

  lemma TreeIsNext(tree: Tree, t: Tree, init: seq<Member>, last: Member)
    requires TreeIs(tree, init) && Holds(t, last)
    requires forall n :: n in tree ==> n in t && t[n] == tree[n]
    requires forall n :: n in t && n !in tree && n != last.name ==> t[n].Dir? && IsPrefix(n, last.name)
    ensures TreeIs(t, init + [last])
  {
    var members := init + [last];
    forall i | 0 <= i < |members| ensures Holds(t, members[i]) {
      if i < |init| {
        assert Holds(tree, init[i]);
      }
    }
    forall name | name in t ensures Comes(t, name, members) {
      if name in tree {
        assert Comes(tree, name, init);
        var i :| 0 <= i < |init| && (init[i].name == name || (IsPrefix(name, init[i].name) && tree[name].Dir?));
        assert members[i] == init[i];
      } else {
        assert members[|init|] == last;
      }
    }
  }

  lemma SeenAreNext(seen: set<Name>, init: seq<Member>, last: Member)
    requires SeenAre(seen, init) && last.name !in seen
    ensures SeenAre(seen + {last.name}, init + [last])
  {
    var members := init + [last];
    forall name ensures name in seen + {last.name} <==> exists i :: 0 <= i < |members| && members[i].name == name {
      if name in seen {
        var i :| 0 <= i < |init| && init[i].name == name;
        assert members[i].name == name;
      }
      if name == last.name {
        assert members[|init|].name == name;
      }
      if i :| 0 <= i < |members| && members[i].name == name {
        assert i < |init| ==> init[i].name == name;
      }
    }
  }

  /** After extracting, every member is in the tree with its own bytes, and nothing else but directories above members. */
  lemma {:induction false} ExtractedTree(members: seq<Member>)
    requires ExtractedAll(NOTHING, members).Some?
    ensures TreeIs(ExtractedAll(NOTHING, members).value.tree, members)
  {
    if members != [] {
      var init, last := members[..|members| - 1], members[|members| - 1];
      assert members == init + [last];
      ExtractedTree(init);
      var u := ExtractedAll(NOTHING, init).value;
      ExtractedAdds(u, last);
      TreeIsNext(u.tree, Extracted(u, last).value.tree, init, last);
    }
  }

  lemma ExtractedCounts(u: Unpacking, m: Member)
    requires Extracted(u, m).Some?
    ensures |u.seen| < MAX_FILES && m.name !in u.seen && MemberFits(m) && u.total + m.size <= MAX_EXPANDED_BYTES
    ensures Extracted(u, m).value.seen == u.seen + {m.name} && Extracted(u, m).value.total == u.total + m.size
  {
  }

  lemma DistinctNext(init: seq<Member>, last: Member, seen: set<Name>)
    requires DistinctNames(init) && SeenAre(seen, init) && last.name !in seen
    ensures DistinctNames(init + [last])
  {
    forall i | 0 <= i < |init| ensures init[i].name != last.name {
      assert init[i].name in seen;
    }
  }

  lemma {:induction false} ExtractedNames(members: seq<Member>)
    requires ExtractedAll(NOTHING, members).Some?
    ensures SeenAre(ExtractedAll(NOTHING, members).value.seen, members)
    ensures DistinctNames(members) && |members| <= MAX_FILES
  {
    if members != [] {
      var init, last := members[..|members| - 1], members[|members| - 1];
      assert members == init + [last];
      ExtractedNames(init);
      var u := ExtractedAll(NOTHING, init).value;
      ExtractedCounts(u, last);
      SeenAreNext(u.seen, init, last);
      DistinctNext(init, last, u.seen);
    }
  }

  lemma {:induction false} ExtractedSizes(members: seq<Member>)
    requires ExtractedAll(NOTHING, members).Some?
    ensures ExtractedAll(NOTHING, members).value.total == SizeSum(members) <= MAX_EXPANDED_BYTES
  {
    if members != [] {
      var init, last := members[..|members| - 1], members[|members| - 1];
      ExtractedSizes(init);
      ExtractedCounts(ExtractedAll(NOTHING, init).value, last);
    }
  }

  lemma WithinNext(init: seq<Member>, last: Member)
    requires WithinLimits(init) && MemberFits(last)
    ensures WithinLimits(init + [last])
  {
  }

  lemma {:induction false} ExtractedFit(members: seq<Member>)
    requires ExtractedAll(NOTHING, members).Some?
    ensures WithinLimits(members)
  {
    if members != [] {
      var init, last := members[..|members| - 1], members[|members| - 1];
      assert members == init + [last];
      ExtractedFit(init);
      assert MemberFits(last) by {
        ExtractedCounts(ExtractedAll(NOTHING, init).value, last);
      }
      WithinNext(init, last);
    }
  }

  /** Only digits and the letters a to f. */
  predicate AllHex(s: string) {
    forall c :: c in s ==> '0' <= c <= '9' || 'a' <= c <= 'f'
  }

  /** Every accepted archive has at most 100000 members, files and directories with distinct names, and at most 4 GiB of
      file data; its tree holds exactly them and the directories above them. The manifest that is returned is what the
      file `manifest.json` says: version 1, one to four revisions and their lock files by their digests, and the digest
      of the bundle that came with it. */
  lemma AcceptedArchive(a: Archive, codec: Codec)
    requires Unpacked(a, codec).Some?
    ensures DistinctNames(a.members) && |a.members| <= 100000 && WithinLimits(a.members)
    ensures SizeSum(a.members) <= 4294967296 && a.expanded <= 4294967296 && a.compressed <= 536870912
    ensures TreeIs(Unpacked(a, codec).value.0, a.members)
    ensures forall m :: m in a.members ==>
              && (m.name == ["manifest.json"] || m.name == ["source.bundle"] || (m.name != [] && m.name[0] == "vendor"))
              && forall c :: c in m.name ==> c != "" && c != "." && c != ".."
    ensures var (tree, m) := Unpacked(a, codec).value;
            && ["manifest.json"] in tree && tree[["manifest.json"]].File?
            && |tree[["manifest.json"]].data| <= 65536 && codec.decode(tree[["manifest.json"]].data) == Some(m)
            && m.version == 1 && 1 <= |m.revisions| <= 4
            && (forall commit :: commit in m.revisions ==>
                  && |commit| == 40 && AllHex(commit)
                  && |m.revisions[commit]| == 64 && AllHex(m.revisions[commit]))
            && ["source.bundle"] in tree && tree[["source.bundle"]].File?
            && m.bundle == Digest(tree[["source.bundle"]].data)
            && ["vendor"] in tree && tree[["vendor"]].Dir?
  {
    ExtractedTree(a.members);
    ExtractedNames(a.members);
    ExtractedSizes(a.members);
    ExtractedFit(a.members);
    forall m | m in a.members
      ensures m.name == ["manifest.json"] || m.name == ["source.bundle"] || (m.name != [] && m.name[0] == "vendor")
      ensures forall c :: c in m.name ==> c != "" && c != "." && c != ".."
    {
      var i :| 0 <= i < |a.members| && a.members[i] == m;
      assert MemberFits(a.members[i]);
    }
    HexIs();
  }

  lemma HexIs()
    ensures forall s, n {:trigger IsHex(s, n)} :: IsHex(s, n) <==> |s| == n && AllHex(s)
  {
    forall s, n | |s| == n && AllHex(s) ensures IsHex(s, n) {
      assert forall i :: 0 <= i < |s| ==> s[i] in s;
    }
  }

  // What `package` makes of files with several links.

  /** `a` is packed before `b`, which is the same file, has several links, and so will not be packed as a file. */
  predicate SecondLink(a: Item, b: Item) {
    a.ItemFile? && b.ItemFile? && a.inode == b.inode && b.links > 1
  }

  /** No file with several links is met twice. */
  ghost predicate LinkFree(walk: seq<Named>) {
    forall i, j :: 0 <= i < j < |walk| ==> !SecondLink(walk[i].item, walk[j].item)
  }

  /** The bundle is not below the vendor directory. */
  ghost predicate Apart(bundle: Bundle, listing: seq<Entry>) {
    forall i :: 0 <= i < |listing| ==> bundle.below != Some(listing[i].path)
  }

  /** The archive knows exactly the files met so far, each under a name it was met with. */
  lemma {:induction false} InodesAre(walk: seq<Named>, inode: nat)
    ensures inode in Inodes(walk) <==>
            exists k :: 0 <= k < |walk| && walk[k].item.ItemFile? && walk[k].item.inode == inode
    ensures inode in Inodes(walk) ==> exists k :: 0 <= k < |walk| && walk[k].name == Inodes(walk)[inode]
  {
    if walk != [] {
      var n := |walk| - 1;
      InodesAre(walk[..n], inode);
      assert forall k :: 0 <= k < n ==> walk[..n][k] == walk[k];
      assert walk[n].item.ItemFile? && walk[n].item.inode == inode ==> inode in Inodes(walk);
    }
  }

  /** The member for a path by itself. */
  function Plain(n: Named): Member {
    MemberOf(map[], n)
  }

  lemma LinkFreeIsPlain(walk: seq<Named>, j: nat)
    requires LinkFree(walk) && j < |walk|
    ensures WalkMembers(walk)[j] == Plain(walk[j])
  {
    if walk[j].item.ItemFile? {
      InodesAre(walk[..j], walk[j].item.inode);
    }
  }

  /** A second link becomes a link member, or a second member of the same name. */
  lemma SecondLinkShows(walk: seq<Named>, i: nat, j: nat)
    requires i < j < |walk| && SecondLink(walk[i].item, walk[j].item)
    ensures WalkMembers(walk)[j].kind.Link? || exists k :: 0 <= k < j && walk[k].name == walk[j].name
  {
    var init, inode := walk[..j], walk[j].item.inode;
    InodesAre(init, inode);
    assert init[i] == walk[i];
    assert inode in Inodes(init);
    var k :| 0 <= k < |init| && init[k].name == Inodes(init)[inode];
    assert init[k] == walk[k];
  }

  lemma MemberNames(codec: Codec, manifest: Manifest, walk: seq<Named>, i: nat)
    requires i < |walk|
    ensures Members(codec, manifest, walk)[i + 1] == WalkMembers(walk)[i]
    ensures Members(codec, manifest, walk)[i + 1].name == walk[i].name
  {
  }

  lemma AcceptedIsLinkFree(codec: Codec, manifest: Manifest, walk: seq<Named>)
    requires DistinctNames(Members(codec, manifest, walk)) && WithinLimits(Members(codec, manifest, walk))
    ensures LinkFree(walk)
  {
    var members := Members(codec, manifest, walk);
    forall i, j | 0 <= i < j < |walk| ensures !SecondLink(walk[i].item, walk[j].item) {
      if SecondLink(walk[i].item, walk[j].item) {
        SecondLinkShows(walk, i, j);
        MemberNames(codec, manifest, walk, j);
        assert MemberFits(members[j + 1]);
        var k :| 0 <= k < j && walk[k].name == walk[j].name;
        MemberNames(codec, manifest, walk, k);
        assert false;
      }
    }
  }

  lemma AcceptedIsApart(codec: Codec, manifest: Manifest, bundle: Bundle, listing: seq<Entry>)
    requires DistinctNames(Members(codec, manifest, Walk(bundle, listing)))
    ensures Apart(bundle, listing)
  {
    var walk := Walk(bundle, listing);
    forall i | 0 <= i < |listing| ensures bundle.below != Some(listing[i].path) {
      MemberNames(codec, manifest, walk, 0);
      MemberNames(codec, manifest, walk, i + 1);
    }
  }

  function VendorMembers(listing: seq<Entry>): seq<Member> {
    seq(|listing|, i requires 0 <= i < |listing| => Plain(Named(VENDOR + listing[i].path, listing[i].item)))
  }

  function Header(codec: Codec, manifest: Manifest, bundle: Item): seq<Member> {
    [ManifestMember(codec, manifest), Plain(Named(BUNDLE, bundle))]
  }

  /** Without second links, and with the bundle apart, every path has a member of its own. */
  lemma PlainMembers(codec: Codec, manifest: Manifest, bundle: Bundle, listing: seq<Entry>)
    requires LinkFree(Walk(bundle, listing)) && Apart(bundle, listing)
    ensures Members(codec, manifest, Walk(bundle, listing)) == Header(codec, manifest, bundle.item) + VendorMembers(listing)
  {
    var walk := Walk(bundle, listing);
    var plain := [Plain(walk[0])] + VendorMembers(listing);
    forall i | 0 <= i < |walk| ensures WalkMembers(walk)[i] == plain[i] {
      LinkFreeIsPlain(walk, i);
    }
    assert WalkMembers(walk) == plain;
  }

  // Packing and unpacking.

  function NodeOf(item: Item): Node {
    if item.ItemFile? then File(item.data, item.executable) else Dir
  }

  /** The tree that was packed: manifest, bundle, and the vendor directory. */
  function TreeOf(codec: Codec, manifest: Manifest, bundle: Item, listing: seq<Entry>): Tree {
    if listing == [] then map[MANIFEST := File(codec.encode(manifest), false), BUNDLE := NodeOf(bundle)]
    else
      var last := listing[|listing| - 1];
      TreeOf(codec, manifest, bundle, listing[..|listing| - 1])[VENDOR + last.path := NodeOf(last.item)]
  }

  function SeenOf(listing: seq<Entry>): set<Name> {
    if listing == [] then {MANIFEST, BUNDLE}
    else SeenOf(listing[..|listing| - 1]) + {VENDOR + listing[|listing| - 1].path}
  }

  function StateOf(codec: Codec, manifest: Manifest, bundle: Item, listing: seq<Entry>): Unpacking {
    Unpacking(SeenOf(listing), |codec.encode(manifest)| + FileSize(bundle) + TotalSize(listing),
              TreeOf(codec, manifest, bundle, listing))
  }

  /** `unpack`'s own limits on number and data of what was packed. */
  predicate Limits(codec: Codec, manifest: Manifest, bundle: Item, listing: seq<Entry>) {
    && |listing| + 2 <= MAX_FILES
    && FileSize(bundle) <= MAX_INPUT_BYTES
    && (forall i :: 0 <= i < |listing| ==> FileSize(listing[i].item) <= MAX_INPUT_BYTES)
    && |codec.encode(manifest)| <= MAX_MANIFEST_BYTES
    && |codec.encode(manifest)| + FileSize(bundle) + TotalSize(listing) <= MAX_EXPANDED_BYTES
  }

  predicate PackableEntry(e: Entry) {
    Packable(Named(VENDOR + e.path, e.item))
  }

  lemma FixedNames()
    ensures IsRelative(MANIFEST) && IsRelative(BUNDLE) && IsRelative(VENDOR)
    ensures MANIFEST != BUNDLE && BUNDLE != VENDOR && MANIFEST != VENDOR
  {
  }

  lemma TopFile(u: Unpacking, name: Name, data: bytes, executable: bool)
    requires |name| == 1 && name !in u.tree
    requires Admissible(u, Member(name, |data|, data, RegularFile, executable))
    ensures Extracted(u, Member(name, |data|, data, RegularFile, executable))
         == Some(Unpacking(u.seen + {name}, u.total + |data|, u.tree[name := File(data, executable)]))
  {
    assert name[..0] == [] && data[..|data|] == data;
  }

  lemma ExtractedTwo(u: Unpacking, a: Member, b: Member, v: Unpacking)
    requires Extracted(u, a) == Some(v)
    ensures ExtractedAll(u, [a, b]) == Extracted(v, b)
  {
    assert [a, b][..1] == [a] && [a][..0] == [];
    assert ExtractedAll(u, [a]) == Some(v);
  }

  lemma ManifestFirst(data: bytes)
    requires |data| <= MAX_MANIFEST_BYTES
    ensures Extracted(NOTHING, Member(MANIFEST, |data|, data, RegularFile, false))
         == Some(Unpacking({MANIFEST}, |data|, map[MANIFEST := File(data, false)]))
  {
    FixedNames();
    TopFile(NOTHING, MANIFEST, data, false);
  }

  lemma BundleSecond(data: bytes, bundle: Item)
    requires bundle.ItemFile? && |bundle.data| <= MAX_INPUT_BYTES && |data| + |bundle.data| <= MAX_EXPANDED_BYTES
    ensures Extracted(Unpacking({MANIFEST}, |data|, map[MANIFEST := File(data, false)]), Plain(Named(BUNDLE, bundle)))
         == Some(Unpacking({MANIFEST, BUNDLE}, |data| + |bundle.data|,
                           map[MANIFEST := File(data, false), BUNDLE := NodeOf(bundle)]))
  {
    FixedNames();
    var v := Unpacking({MANIFEST}, |data|, map[MANIFEST := File(data, false)]);
    TopFile(v, BUNDLE, bundle.data, bundle.executable);
    assert v.seen + {BUNDLE} == {MANIFEST, BUNDLE};
    assert v.tree[BUNDLE := NodeOf(bundle)] == map[MANIFEST := File(data, false), BUNDLE := NodeOf(bundle)];
  }

  lemma HeaderExtracts(codec: Codec, manifest: Manifest, bundle: Item)
    requires bundle.ItemFile? && Limits(codec, manifest, bundle, [])
    ensures ExtractedAll(NOTHING, Header(codec, manifest, bundle)) == Some(StateOf(codec, manifest, bundle, []))
  {
    var data := codec.encode(manifest);
    var v := Unpacking({MANIFEST}, |data|, map[MANIFEST := File(data, false)]);
    ManifestFirst(data);
    BundleSecond(data, bundle);
    ExtractedTwo(NOTHING, ManifestMember(codec, manifest), Plain(Named(BUNDLE, bundle)), v);
  }

  lemma UnderVendor(a: Name, b: Name)
    ensures VENDOR + a == VENDOR + b <==> a == b
  {
    assert (VENDOR + a)[1..] == a && (VENDOR + b)[1..] == b;
  }

  lemma {:induction false} SeenOfHas(listing: seq<Entry>, name: Name)
    ensures name in SeenOf(listing) <==>
            name == MANIFEST || name == BUNDLE
            || exists i :: 0 <= i < |listing| && VENDOR + listing[i].path == name
  {
    if listing != [] {
      var init := listing[..|listing| - 1];
      SeenOfHas(init, name);
      if i :| 0 <= i < |listing| && VENDOR + listing[i].path == name {
        assert i < |init| ==> init[i] == listing[i];
      }
      if i :| 0 <= i < |init| && VENDOR + init[i].path == name {
        assert listing[i] == init[i];
      }
    }
  }

  lemma TreeOfNext(codec: Codec, manifest: Manifest, bundle: Item, init: seq<Entry>, last: Entry)
    ensures TreeOf(codec, manifest, bundle, init + [last])
         == TreeOf(codec, manifest, bundle, init)[VENDOR + last.path := NodeOf(last.item)]
  {
    assert (init + [last])[..|init|] == init;
  }

  lemma {:induction false} TreeOfHas(codec: Codec, manifest: Manifest, bundle: Item, listing: seq<Entry>, j: nat)
    requires DistinctPaths(listing) && j < |listing|
    ensures var t := TreeOf(codec, manifest, bundle, listing);
            VENDOR + listing[j].path in t && t[VENDOR + listing[j].path] == NodeOf(listing[j].item)
  {
    var n := |listing| - 1;
    var init, last := listing[..n], listing[n];
    assert listing == init + [last];
    if j < n {
      TreeOfHas(codec, manifest, bundle, init, j);
      UnderVendor(listing[j].path, last.path);
    }
    TreeOfNext(codec, manifest, bundle, init, last);
  }

  lemma {:induction false} TreeOfTop(codec: Codec, manifest: Manifest, bundle: Item, listing: seq<Entry>)
    ensures var t := TreeOf(codec, manifest, bundle, listing);
            && t.Keys == SeenOf(listing)
            && MANIFEST in t && t[MANIFEST] == File(codec.encode(manifest), false)
            && BUNDLE in t && t[BUNDLE] == NodeOf(bundle)
  {
    FixedNames();
    if listing != [] {
      TreeOfTop(codec, manifest, bundle, listing[..|listing| - 1]);
    }
  }

  lemma ListingPrefix(listing: seq<Entry>, n: nat)
    requires IsListing(listing) && n <= |listing|
    ensures IsListing(listing[..n])
  {
    var init := listing[..n];
    forall i | 0 <= i < n && init[i].path != [] ensures HasParent(init, i) {
      assert HasParent(listing, i);
      var j :| 0 <= j < i && listing[j] == Entry(listing[i].path[..|listing[i].path| - 1], ItemDir);
      assert init[j] == listing[j];
    }
  }

  lemma AboveVendor(path: Name)
    requires path != []
    ensures (VENDOR + path)[..|VENDOR + path| - 1] == VENDOR + path[..|path| - 1]
  {
  }

  /** A directory that is there with all its parents is made again without effect. */
  lemma {:induction false} MadeBefore(codec: Codec, manifest: Manifest, bundle: Item, listing: seq<Entry>, j: nat)
    requires IsListing(listing) && j < |listing| && listing[j].item == ItemDir
    ensures var t := TreeOf(codec, manifest, bundle, listing);
            MakeDirs(t, VENDOR + listing[j].path) == Some(t)
    decreases |listing[j].path|
  {
    var t, path := TreeOf(codec, manifest, bundle, listing), listing[j].path;
    TreeOfHas(codec, manifest, bundle, listing, j);
    if path == [] {
      assert VENDOR + path == VENDOR && VENDOR[..0] == [];
    } else {
      assert HasParent(listing, j);
      var k :| 0 <= k < j && listing[k] == Entry(path[..|path| - 1], ItemDir);
      MadeBefore(codec, manifest, bundle, listing, k);
      AboveVendor(path);
    }
  }

  /** The directory above the next entry is there already. */
  lemma ParentMade(codec: Codec, manifest: Manifest, bundle: Item, listing: seq<Entry>)
    requires IsListing(listing) && listing != []
    ensures var init, name := listing[..|listing| - 1], VENDOR + listing[|listing| - 1].path;
            var t := TreeOf(codec, manifest, bundle, init);
            MakeDirs(t, name[..|name| - 1]) == Some(t)
  {
    var n := |listing| - 1;
    var init, path := listing[..n], listing[n].path;
    ListingPrefix(listing, n);
    if path == [] {
      assert (VENDOR + path)[..0] == [];
    } else {
      AboveVendor(path);
      assert HasParent(listing, n);
      var k :| 0 <= k < n && listing[k] == Entry(path[..|path| - 1], ItemDir);
      assert init[k] == listing[k];
      MadeBefore(codec, manifest, bundle, init, k);
    }
  }

  lemma {:induction false} SeenOfSize(listing: seq<Entry>)
    ensures |SeenOf(listing)| <= |listing| + 2
  {
    if listing != [] {
      SeenOfSize(listing[..|listing| - 1]);
    }
  }

  lemma VendorIsApart(path: Name)
    ensures VENDOR + path != MANIFEST && VENDOR + path != BUNDLE
  {
    FixedNames();
    assert (VENDOR + path)[0] == "vendor" && |"vendor"| == 6 && |MANIFEST[0]| == 13 && |BUNDLE[0]| == 13;
  }

  lemma NextIsNew(listing: seq<Entry>)
    requires DistinctPaths(listing) && listing != []
    ensures VENDOR + listing[|listing| - 1].path !in SeenOf(listing[..|listing| - 1])
  {
    var n := |listing| - 1;
    var init, path := listing[..n], listing[n].path;
    VendorIsApart(path);
    SeenOfHas(init, VENDOR + path);
    forall i | 0 <= i < n ensures VENDOR + init[i].path != VENDOR + path {
      UnderVendor(init[i].path, path);
    }
  }

  lemma LimitsPrefix(codec: Codec, manifest: Manifest, bundle: Item, listing: seq<Entry>)
    requires Limits(codec, manifest, bundle, listing) && listing != []
    ensures Limits(codec, manifest, bundle, listing[..|listing| - 1])
  {
  }

  lemma NextIsAdmissible(codec: Codec, manifest: Manifest, bundle: Item, listing: seq<Entry>)
    requires IsListing(listing) && listing != [] && Limits(codec, manifest, bundle, listing)
    requires PackableEntry(listing[|listing| - 1])
    ensures var last := listing[|listing| - 1];
            Admissible(StateOf(codec, manifest, bundle, listing[..|listing| - 1]), Plain(Named(VENDOR + last.path, last.item)))
  {
    SeenOfSize(listing[..|listing| - 1]);
    NextIsNew(listing);
    assert FileSize(listing[|listing| - 1].item) <= MAX_INPUT_BYTES;
  }

  lemma MemberMade(tree: Tree, name: Name, item: Item)
    requires name != [] && name !in tree && MakeDirs(tree, name[..|name| - 1]) == Some(tree) && !item.ItemOther?
    ensures Made(tree, Plain(Named(name, item))) == Some(tree[name := NodeOf(item)])
  {
    if item.ItemFile? {
      assert item.data[..|item.data|] == item.data;
    } else {
      MakeDirsLast(tree, name);
    }
  }

  lemma EntryMade(codec: Codec, manifest: Manifest, bundle: Item, listing: seq<Entry>)
    requires IsListing(listing) && listing != [] && !listing[|listing| - 1].item.ItemOther?
    ensures var last := listing[|listing| - 1];
            Made(TreeOf(codec, manifest, bundle, listing[..|listing| - 1]), Plain(Named(VENDOR + last.path, last.item)))
            == Some(TreeOf(codec, manifest, bundle, listing))
  {
    var n := |listing| - 1;
    var tree, last := TreeOf(codec, manifest, bundle, listing[..n]), listing[n];
    ParentMade(codec, manifest, bundle, listing);
    NextIsNew(listing);
    TreeOfTop(codec, manifest, bundle, listing[..n]);
    MemberMade(tree, VENDOR + last.path, last.item);
  }

  lemma MakeDirsLast(tree: Tree, name: Name)
    requires name != [] && name !in tree && MakeDirs(tree, name[..|name| - 1]) == Some(tree)
    ensures MakeDirs(tree, name) == Some(tree[name := Dir])
  {
  }

  lemma ExtractedInto(u: Unpacking, m: Member, tree: Tree)
    requires Admissible(u, m) && Made(u.tree, m) == Some(tree)
    ensures Extracted(u, m) == Some(Unpacking(u.seen + {m.name}, u.total + m.size, tree))
  {
  }

  lemma StateOfNext(codec: Codec, manifest: Manifest, bundle: Item, init: seq<Entry>, last: Entry)
    ensures var u := StateOf(codec, manifest, bundle, init);
            StateOf(codec, manifest, bundle, init + [last])
            == Unpacking(u.seen + {VENDOR + last.path}, u.total + FileSize(last.item),
                         u.tree[VENDOR + last.path := NodeOf(last.item)])
  {
    assert (init + [last])[..|init|] == init;
  }

  lemma EntryFollows(codec: Codec, manifest: Manifest, bundle: Item, init: seq<Entry>, last: Entry)
    requires var u, m := StateOf(codec, manifest, bundle, init), Plain(Named(VENDOR + last.path, last.item));
             Admissible(u, m) && Made(u.tree, m) == Some(TreeOf(codec, manifest, bundle, init + [last]))
    ensures Extracted(StateOf(codec, manifest, bundle, init), Plain(Named(VENDOR + last.path, last.item)))
         == Some(StateOf(codec, manifest, bundle, init + [last]))
  {
    var u, m := StateOf(codec, manifest, bundle, init), Plain(Named(VENDOR + last.path, last.item));
    ExtractedInto(u, m, TreeOf(codec, manifest, bundle, init + [last]));
    StateOfNext(codec, manifest, bundle, init, last);
  }

  lemma EntryExtracts(codec: Codec, manifest: Manifest, bundle: Item, listing: seq<Entry>, init: seq<Entry>, last: Entry)
    requires listing == init + [last] && IsListing(listing) && Limits(codec, manifest, bundle, listing) && PackableEntry(last)
    ensures Extracted(StateOf(codec, manifest, bundle, init), Plain(Named(VENDOR + last.path, last.item)))
         == Some(StateOf(codec, manifest, bundle, listing))
  {
    assert listing[..|listing| - 1] == init && listing[|listing| - 1] == last;
    NextIsAdmissible(codec, manifest, bundle, listing);
    EntryMade(codec, manifest, bundle, listing);
    EntryFollows(codec, manifest, bundle, init, last);
  }

  ghost predicate AllEntriesPackable(listing: seq<Entry>) {
    forall i {:trigger PackableEntry(listing[i])} :: 0 <= i < |listing| ==> PackableEntry(listing[i])
  }

  lemma {:induction false} LimitsOfPrefix(codec: Codec, manifest: Manifest, bundle: Item, listing: seq<Entry>, n: nat)
    requires Limits(codec, manifest, bundle, listing) && n <= |listing|
    ensures Limits(codec, manifest, bundle, listing[..n])
    decreases |listing|
  {
    if n == |listing| {
      assert listing[..n] == listing;
    } else {
      var init := listing[..|listing| - 1];
      LimitsPrefix(codec, manifest, bundle, listing);
      LimitsOfPrefix(codec, manifest, bundle, init, n);
      assert init[..n] == listing[..n];
    }
  }

  /** What the entry at `n` and those before it must be to extract. */
  ghost predicate ReadyAt(codec: Codec, manifest: Manifest, bundle: Item, listing: seq<Entry>, n: nat)
    requires n < |listing|
  {
    && IsListing(listing[..n + 1]) && Limits(codec, manifest, bundle, listing[..n + 1]) && PackableEntry(listing[n])
  }

  lemma EntryIsReady(codec: Codec, manifest: Manifest, bundle: Item, listing: seq<Entry>, n: nat)
    requires IsListing(listing) && Limits(codec, manifest, bundle, listing) && AllEntriesPackable(listing) && n < |listing|
    ensures ReadyAt(codec, manifest, bundle, listing, n)
  {
    var m := n + 1;
    assert PackableEntry(listing[n]);
    ListingPrefix(listing, m);
    LimitsOfPrefix(codec, manifest, bundle, listing, m);
  }

  lemma EntryExtractsAt(codec: Codec, manifest: Manifest, bundle: Item, listing: seq<Entry>, n: nat)
    requires n < |listing| && ReadyAt(codec, manifest, bundle, listing, n)
    ensures Extracted(StateOf(codec, manifest, bundle, listing[..n]), Plain(Named(VENDOR + listing[n].path, listing[n].item)))
         == Some(StateOf(codec, manifest, bundle, listing[..n + 1]))
  {
    var m := n + 1;
    PrefixSnoc(listing, n);
    EntryExtracts(codec, manifest, bundle, listing[..m], listing[..n], listing[n]);
  }

  function Extracting(): (Unpacking, Member) -> Option<Unpacking> {
    (u: Unpacking, m: Member) => Extracted(u, m)
  }

  lemma {:induction false} ExtractedAllFolds(u: Unpacking, members: seq<Member>)
    ensures ExtractedAll(u, members) == FoldSteps(Extracting(), u, members)
  {
    if members != [] {
      ExtractedAllFolds(u, members[..|members| - 1]);
    }
  }

  function States(codec: Codec, manifest: Manifest, bundle: Item, listing: seq<Entry>): seq<Unpacking> {
    seq(|listing| + 1, n requires 0 <= n <= |listing| => StateOf(codec, manifest, bundle, listing[..n]))
  }

  lemma AllEntriesExtract(codec: Codec, manifest: Manifest, bundle: Item, listing: seq<Entry>, header: seq<Member>)
    requires forall n :: 0 <= n < |listing| ==> ReadyAt(codec, manifest, bundle, listing, n)
    requires ExtractedAll(NOTHING, header) == Some(StateOf(codec, manifest, bundle, []))
    ensures ExtractedAll(NOTHING, header + VendorMembers(listing)) == Some(StateOf(codec, manifest, bundle, listing))
  {
    var members, states, step := VendorMembers(listing), States(codec, manifest, bundle, listing), Extracting();
    forall i | 0 <= i < |members| ensures step(states[i], members[i]) == Some(states[i + 1]) {
      EntryExtractsAt(codec, manifest, bundle, listing, i);
    }
    assert listing[..0] == [] && listing[..|listing|] == listing && members[..|listing|] == members;
    ExtractedAllFolds(NOTHING, header);
    ExtractedAllFolds(NOTHING, header + members);
    FoldStepsAlong(step, NOTHING, header, members, states, |listing|);
  }

  lemma {:induction false} LimitsOfHeader(codec: Codec, manifest: Manifest, bundle: Item, listing: seq<Entry>)
    requires Limits(codec, manifest, bundle, listing)
    ensures Limits(codec, manifest, bundle, [])
  {
  }

  lemma {:induction false} VendorSizes(listing: seq<Entry>)
    ensures SizeSum(VendorMembers(listing)) == TotalSize(listing)
  {
    if listing != [] {
      var n := |listing| - 1;
      VendorSizes(listing[..n]);
      assert VendorMembers(listing)[..n] == VendorMembers(listing[..n]);
    }
  }

  lemma {:induction false} SizeSumConcat(a: seq<Member>, b: seq<Member>)
    ensures SizeSum(a + b) == SizeSum(a) + SizeSum(b)
  {
    if b == [] {
      assert a + b == a;
    } else {
      SizeSumConcat(a, b[..|b| - 1]);
      assert (a + b)[..|a + b| - 1] == a + b[..|b| - 1];
    }
  }

  lemma HeaderSize(codec: Codec, manifest: Manifest, bundle: Item)
    ensures SizeSum(Header(codec, manifest, bundle)) == |codec.encode(manifest)| + FileSize(bundle)
  {
    var h := Header(codec, manifest, bundle);
    assert h[..1][..0] == [] && h[..2] == h && h[..2][..1] == h[..1];
    assert SizeSum(h[..1]) == h[0].size;
  }

  lemma PackedSizes(codec: Codec, manifest: Manifest, bundle: Item, listing: seq<Entry>)
    ensures SizeSum(Header(codec, manifest, bundle) + VendorMembers(listing))
         == |codec.encode(manifest)| + FileSize(bundle) + TotalSize(listing)
  {
    SizeSumConcat(Header(codec, manifest, bundle), VendorMembers(listing));
    HeaderSize(codec, manifest, bundle);
    VendorSizes(listing);
  }

  lemma AcceptedFiles(codec: Codec, manifest: Manifest, bundle: Item, listing: seq<Entry>, members: seq<Member>)
    requires members == Header(codec, manifest, bundle) + VendorMembers(listing) && WithinLimits(members)
    ensures FileSize(bundle) <= MAX_INPUT_BYTES
    ensures forall i :: 0 <= i < |listing| ==> FileSize(listing[i].item) <= MAX_INPUT_BYTES
  {
    assert members[1] == Plain(Named(BUNDLE, bundle)) && MemberFits(members[1]);
    forall i | 0 <= i < |listing| ensures FileSize(listing[i].item) <= MAX_INPUT_BYTES {
      assert members[2 + i] == VendorMembers(listing)[i];
      assert MemberFits(members[2 + i]);
    }
  }

  /** Whatever is packed and then accepted is small enough. */
  lemma AcceptedSizes(codec: Codec, manifest: Manifest, bundle: Item, listing: seq<Entry>, members: seq<Member>)
    requires members == Header(codec, manifest, bundle) + VendorMembers(listing)
    requires WithinLimits(members) && SizeSum(members) <= MAX_EXPANDED_BYTES
    ensures FileSize(bundle) <= MAX_INPUT_BYTES
    ensures forall i :: 0 <= i < |listing| ==> FileSize(listing[i].item) <= MAX_INPUT_BYTES
    ensures |codec.encode(manifest)| + FileSize(bundle) + TotalSize(listing) <= MAX_EXPANDED_BYTES
  {
    AcceptedFiles(codec, manifest, bundle, listing, members);
    PackedSizes(codec, manifest, bundle, listing);
  }

  /** The manifest that is accepted is the one that was packed, for the bundle that was packed. */
  lemma AcceptedManifest(codec: Codec, manifest: Manifest, bundle: Item, tree: Tree)
    requires codec.RoundTrips() && Checked(tree, codec).Some?
    requires Holds(tree, ManifestMember(codec, manifest)) && Holds(tree, Plain(Named(BUNDLE, bundle)))
    ensures |codec.encode(manifest)| <= MAX_MANIFEST_BYTES && bundle.ItemFile? && IsValid(manifest, bundle.data)
  {
    var data := codec.encode(manifest);
    assert data[..|data|] == data;
    assert codec.decode(data) == Some(manifest);
    if bundle.ItemFile? {
      assert bundle.data[..|bundle.data|] == bundle.data;
    }
  }

  /** Exactly when `unpack` takes what `package` made: the bundle is a file and `vendor` a directory; no file with several
      links is packed twice, nor the bundle found again below `vendor`; the limits hold, the manifest is a valid one for
      the bundle, and the tar stream with all its headers and padding is within 4 GiB. */
  ghost predicate CanUnpack(codec: Codec, manifest: Manifest, bundle: Bundle, listing: seq<Entry>)
    requires listing != []
  {
    && bundle.item.ItemFile? && listing[0].item.ItemDir?
    && LinkFree(Walk(bundle, listing)) && Apart(bundle, listing)
    && Limits(codec, manifest, bundle.item, listing)
    && IsValid(manifest, bundle.item.data)
    && Expanded(Members(codec, manifest, Walk(bundle, listing))) <= MAX_EXPANDED_BYTES
  }

  lemma FirstIsVendor(listing: seq<Entry>)
    requires IsListing(listing) && listing != []
    ensures listing[0].path == []
  {
    if listing[0].path != [] {
      assert false;
    }
  }

  lemma AcceptedVendor(listing: seq<Entry>, tree: Tree, codec: Codec)
    requires IsListing(listing) && listing != [] && Checked(tree, codec).Some?
    requires Holds(tree, VendorMembers(listing)[0])
    requires !listing[0].item.ItemOther?
    ensures listing[0].item.ItemDir?
  {
    FirstIsVendor(listing);
    assert VENDOR + [] == VENDOR;
  }

  lemma AcceptedTree(codec: Codec, manifest: Manifest, bundle: Bundle, listing: seq<Entry>, a: Archive)
    requires codec.RoundTrips() && IsListing(listing) && listing != []
    requires a.members == Header(codec, manifest, bundle.item) + VendorMembers(listing) && Unpacked(a, codec).Some?
    requires !listing[0].item.ItemOther?
    ensures Limits(codec, manifest, bundle.item, listing)
    ensures bundle.item.ItemFile? && listing[0].item.ItemDir? && IsValid(manifest, bundle.item.data)
  {
    var tree, header := Unpacked(a, codec).value.0, Header(codec, manifest, bundle.item);
    AcceptedArchive(a, codec);
    AcceptedSizes(codec, manifest, bundle.item, listing, a.members);
    assert a.members[0] == header[0] && a.members[1] == header[1] && a.members[2] == VendorMembers(listing)[0];
    assert Holds(tree, a.members[0]) && Holds(tree, a.members[1]) && Holds(tree, a.members[2]);
    AcceptedManifest(codec, manifest, bundle.item, tree);
    AcceptedVendor(listing, tree, codec);
  }

  /** Whatever is packed and then accepted meets the condition. */
  lemma AcceptedPackage(codec: Codec, manifest: Manifest, bundle: Bundle, listing: seq<Entry>, a: Archive)
    requires codec.RoundTrips() && IsListing(listing) && listing != [] && AllPackable(Walk(bundle, listing))
    requires a.members == Members(codec, manifest, Walk(bundle, listing)) && a.expanded == Expanded(a.members)
    requires Unpacked(a, codec).Some?
    ensures CanUnpack(codec, manifest, bundle, listing)
  {
    AcceptedArchive(a, codec);
    AcceptedIsLinkFree(codec, manifest, Walk(bundle, listing));
    AcceptedIsApart(codec, manifest, bundle, listing);
    PlainMembers(codec, manifest, bundle, listing);
    assert Packable(Walk(bundle, listing)[1]);
    AcceptedTree(codec, manifest, bundle, listing, a);
  }

  lemma PackedIsChecked(codec: Codec, manifest: Manifest, bundle: Item, listing: seq<Entry>)
    requires codec.RoundTrips() && bundle.ItemFile? && IsListing(listing) && listing != [] && listing[0].item.ItemDir?
    requires |codec.encode(manifest)| <= MAX_MANIFEST_BYTES && IsValid(manifest, bundle.data)
    ensures Checked(TreeOf(codec, manifest, bundle, listing), codec) == Some(manifest)
  {
    TreeOfTop(codec, manifest, bundle, listing);
    FirstIsVendor(listing);
    TreeOfHas(codec, manifest, bundle, listing, 0);
    assert VENDOR + [] == VENDOR;
    assert codec.decode(codec.encode(manifest)) == Some(manifest);
  }

  lemma PackedExtracts(codec: Codec, manifest: Manifest, bundle: Item, listing: seq<Entry>)
    requires bundle.ItemFile? && IsListing(listing) && AllEntriesPackable(listing)
    requires Limits(codec, manifest, bundle, listing)
    ensures ExtractedAll(NOTHING, Header(codec, manifest, bundle) + VendorMembers(listing))
         == Some(StateOf(codec, manifest, bundle, listing))
  {
    LimitsOfHeader(codec, manifest, bundle, listing);
    HeaderExtracts(codec, manifest, bundle);
    forall n | 0 <= n < |listing| ensures ReadyAt(codec, manifest, bundle, listing, n) {
      EntryIsReady(codec, manifest, bundle, listing, n);
    }
    AllEntriesExtract(codec, manifest, bundle, listing, Header(codec, manifest, bundle));
  }

  lemma EntriesPackable(bundle: Bundle, listing: seq<Entry>)
    requires AllPackable(Walk(bundle, listing)) && Apart(bundle, listing)
    ensures AllEntriesPackable(listing)
  {
    forall i | 0 <= i < |listing| ensures PackableEntry(listing[i]) {
      assert Packable(Walk(bundle, listing)[i + 1]);
    }
  }

  lemma PackedUnpacks(codec: Codec, manifest: Manifest, bundle: Bundle, listing: seq<Entry>, a: Archive)
    requires codec.RoundTrips() && IsListing(listing) && listing != [] && AllPackable(Walk(bundle, listing))
    requires a.members == Members(codec, manifest, Walk(bundle, listing)) && a.expanded == Expanded(a.members)
    requires a.compressed <= MAX_INPUT_BYTES && CanUnpack(codec, manifest, bundle, listing)
    ensures Unpacked(a, codec) == Some((TreeOf(codec, manifest, bundle.item, listing), manifest))
  {
    PlainMembers(codec, manifest, bundle, listing);
    EntriesPackable(bundle, listing);
    PackedExtracts(codec, manifest, bundle.item, listing);
    PackedIsChecked(codec, manifest, bundle.item, listing);
  }

  /** Unpacking what was packed gives back the manifest and every path with its bytes and its executable bit, exactly
      if the packed tree meets the condition. */
  lemma RoundTrip(codec: Codec, manifest: Manifest, bundle: Bundle, listing: seq<Entry>, compressed: nat)
    requires codec.RoundTrips() && IsListing(listing) && listing != []
    requires Packaged(codec, manifest, bundle, listing, compressed).Some?
    ensures Unpacked(Packaged(codec, manifest, bundle, listing, compressed).value, codec) ==
            if CanUnpack(codec, manifest, bundle, listing)
            then Some((TreeOf(codec, manifest, bundle.item, listing), manifest)) else None
  {
    var a := Packaged(codec, manifest, bundle, listing, compressed).value;
    if CanUnpack(codec, manifest, bundle, listing) {
      PackedUnpacks(codec, manifest, bundle, listing, a);
    } else if Unpacked(a, codec).Some? {
      AcceptedPackage(codec, manifest, bundle, listing, a);
      assert false;
    }
  }
}
