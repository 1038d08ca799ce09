/** Exactly which archives `unpack` accepts, whoever made them. */
module SourcesAccepted {
  import opened Common
  import opened Sources
  import opened SourcesProps

  // Names, as text.

  predicate HasDollarBrace(s: string) {
    exists i :: 0 <= i < |s| - 1 && s[i] == '$' && s[i + 1] == '{'
  }

  /** `relative` on the text of a path, split at the slashes. */
  predicate GoodPath(name: Name) {
    && 0 < |Text(name)| <= 512
    && (forall part :: part in name ==> part != "" && part != "." && part != ".." && '/' !in part)
    && '\\' !in Text(name) && '\0' !in Text(name) && '\n' !in Text(name) && '\r' !in Text(name)
    && !HasDollarBrace(Text(name))
  }

  lemma {:induction false} CharsOf(name: Name, c: char)
    requires c != '/'
    ensures c in Text(name) <==> exists part :: part in name && c in part
  {
    if |name| == 1 {
      assert name[0] in name;
    } else if |name| > 1 {
      var n := |name| - 1;
      var init, last := name[..n], name[n];
      CharsOf(init, c);
      assert c in Text(name) <==> c in Text(init) || c in last by {
        CharsOfThree(Text(init), last, c);
      }
      assert last in name && forall part :: part in init ==> part in name;
      assert forall part :: part in name ==> part in init || part == last;
    }
  }

  lemma CharsOfThree(a: string, b: string, c: char)
    requires c != '/'
    ensures c in a + "/" + b <==> c in a || c in b
  {
  }

  lemma DollarOfThree(a: string, b: string)
    ensures HasDollarBrace(a + "/" + b) <==> HasDollarBrace(a) || HasDollarBrace(b)
  {
    var s := a + "/" + b;
    assert |s| == |a| + 1 + |b| && forall i :: 0 <= i < |s| ==> s[i] == if i < |a| then a[i] else if i == |a| then '/' else b[i - |a| - 1];
    if i :| 0 <= i < |s| - 1 && s[i] == '$' && s[i + 1] == '{' {
      if i < |a| {
        assert a[i] == '$' && a[i + 1] == '{';
      } else {
        assert b[i - |a| - 1] == '$' && b[i - |a| - 1 + 1] == '{';
      }
    }
    if i :| 0 <= i < |a| - 1 && a[i] == '$' && a[i + 1] == '{' {
      assert s[i] == '$' && s[i + 1] == '{';
    }
    if i :| 0 <= i < |b| - 1 && b[i] == '$' && b[i + 1] == '{' {
      assert s[|a| + 1 + i] == '$' && s[|a| + 1 + i + 1] == '{';
    }
  }

  lemma {:induction false} DollarOf(name: Name)
    ensures HasDollarBrace(Text(name)) <==> exists part :: part in name && HasDollarBrace(part)
  {
    if |name| == 1 {
      assert name[0] in name;
    } else if |name| > 1 {
      var n := |name| - 1;
      var init, last := name[..n], name[n];
      DollarOf(init);
      DollarOfThree(Text(init), last);
      assert last in name && forall part :: part in init ==> part in name;
      assert forall part :: part in name ==> part in init || part == last;
    }
  }

  lemma DollarBraceIs(s: string)
    ensures HasDollarBrace(s) <==> !forall i :: 0 <= i < |s| - 1 && s[i] == '$' ==> s[i + 1] != '{'
  {
    if i :| 0 <= i < |s| - 1 && s[i] == '$' && s[i + 1] == '{' {
      assert HasDollarBrace(s);
    }
  }

  lemma CharIsIn(s: string, c: char)
    ensures c !in s <==> forall i :: 0 <= i < |s| ==> s[i] != c
  {
    if c !in s {
      forall i | 0 <= i < |s| ensures s[i] != c {
        assert s[i] in s;
      }
    }
  }

  lemma PartIs(part: string)
    ensures IsComponent(part) <==>
              && part != "" && part != "." && part != ".." && '/' !in part
              && '\\' !in part && '\0' !in part && '\n' !in part && '\r' !in part && !HasDollarBrace(part)
  {
    DollarBraceIs(part);
    CharIsIn(part, '/');
    CharIsIn(part, '\\');
    CharIsIn(part, '\0');
    CharIsIn(part, '\n');
    CharIsIn(part, '\r');
  }

  lemma RelativeIsGood(name: Name)
    ensures IsRelative(name) <==> GoodPath(name)
  {
    forall c | c in ['\\', '\0', '\n', '\r'] ensures c in Text(name) <==> exists part :: part in name && c in part {
      CharsOf(name, c);
    }
    DollarOf(name);
    forall part ensures IsComponent(part) <==>
              && part != "" && part != "." && part != ".." && '/' !in part
              && '\\' !in part && '\0' !in part && '\n' !in part && '\r' !in part && !HasDollarBrace(part)
    {
      PartIs(part);
    }
  }

  // Members that can be extracted one after another.

  /** By itself a member is a file or an empty directory below the package's roots, with all the data it announces. */
  predicate GoodMember(m: Member) {
    && GoodPath(m.name)
    && (m.name == ["manifest.json"] || m.name == ["source.bundle"] || m.name[0] == "vendor")
    && (m.kind.RegularFile? || (m.kind.Directory? && m.size == 0))
    && 0 <= m.size <= 536870912 && (m.kind.RegularFile? ==> m.size <= |m.data|)
  }

  predicate IsAbove(a: Name, b: Name) {
    |a| < |b| && IsPrefix(a, b)
  }

  /** No two members of one name, and none below a file. */
  ghost predicate Compatible(members: seq<Member>) {
    && DistinctNames(members)
    && forall i, j :: 0 <= i < |members| && 0 <= j < |members| && IsAbove(members[i].name, members[j].name) ==>
                        members[i].kind.Directory?
  }

  ghost predicate Extractable(members: seq<Member>) {
    && |members| <= 100000 && Compatible(members) && SizeSum(members) <= 4294967296
    && forall i {:trigger GoodMember(members[i])} :: 0 <= i < |members| ==> GoodMember(members[i])
  }

  /** Directories can be made if nothing on the way is a file. */
  lemma {:induction false} MakeDirsWorks(tree: Tree, name: Name)
    requires forall p :: p in tree && IsPrefix(p, name) ==> tree[p].Dir?
    ensures MakeDirs(tree, name).Some?
  {
    if name != [] {
      var init := name[..|name| - 1];
      forall p | p in tree && IsPrefix(p, init) ensures tree[p].Dir? {
        assert name[..|p|] == init[..|p|];
      }
      MakeDirsWorks(tree, init);
      MakeDirsAdds(tree, init);
      assert IsPrefix(name, name);
    }
  }

  /** A file of the tree is a member of that name. */
  lemma FileIsMember(tree: Tree, members: seq<Member>, p: Name) returns (i: nat)
    requires TreeIs(tree, members) && p in tree && tree[p].File?
    ensures i < |members| && members[i].name == p && !members[i].kind.Directory?
  {
    assert Comes(tree, p, members);
    i :| 0 <= i < |members| && (members[i].name == p || (IsPrefix(p, members[i].name) && tree[p].Dir?));
    assert Holds(tree, members[i]);
  }

  lemma ComesFrom(tree: Tree, members: seq<Member>, name: Name) returns (i: nat)
    requires TreeIs(tree, members) && name in tree
    ensures i < |members| && (members[i].name == name || IsAbove(name, members[i].name))
  {
    assert Comes(tree, name, members);
    i :| 0 <= i < |members| && (members[i].name == name || (IsPrefix(name, members[i].name) && tree[name].Dir?));
  }

  lemma PrefixOfParent(p: Name, name: Name)
    requires name != [] && IsPrefix(p, name[..|name| - 1])
    ensures IsAbove(p, name)
  {
    assert name[..|p|] == name[..|name| - 1][..|p|];
  }

  lemma CompatibleLast(init: seq<Member>, last: Member)
    requires Compatible(init + [last])
    ensures Compatible(init)
    ensures forall i :: 0 <= i < |init| ==>
              && init[i].name != last.name
              && (IsAbove(init[i].name, last.name) ==> init[i].kind.Directory?)
              && (IsAbove(last.name, init[i].name) ==> last.kind.Directory?)
  {
    var members, n := init + [last], |init|;
    assert members[n] == last;
    forall i | 0 <= i < n
      ensures init[i].name != last.name
      ensures IsAbove(init[i].name, last.name) ==> init[i].kind.Directory?
      ensures IsAbove(last.name, init[i].name) ==> last.kind.Directory?
    {
      assert members[i] == init[i];
    }
    assert forall i :: 0 <= i < n ==> members[i] == init[i];
  }

  lemma NextIsMade(tree: Tree, init: seq<Member>, last: Member)
    requires TreeIs(tree, init) && Compatible(init + [last]) && GoodMember(last)
    ensures Made(tree, last).Some?
  {
    CompatibleLast(init, last);
    if last.kind.Directory? {
      forall p | p in tree && IsPrefix(p, last.name) ensures tree[p].Dir? {
        if tree[p].File? {
          var i := FileIsMember(tree, init, p);
        }
      }
      MakeDirsWorks(tree, last.name);
    } else {
      var parent := last.name[..|last.name| - 1];
      forall p | p in tree && IsPrefix(p, parent) ensures tree[p].Dir? {
        PrefixOfParent(p, last.name);
        if tree[p].File? {
          var i := FileIsMember(tree, init, p);
        }
      }
      MakeDirsWorks(tree, parent);
      MakeDirsAdds(tree, parent);
      NameIsFree(tree, init, last);
    }
  }

  lemma NameIsFree(tree: Tree, init: seq<Member>, last: Member)
    requires TreeIs(tree, init) && Compatible(init + [last]) && GoodMember(last) && last.kind.RegularFile?
    ensures last.name !in tree
  {
    CompatibleLast(init, last);
    if last.name in tree {
      var i := ComesFrom(tree, init, last.name);
    }
  }

  lemma ExtractableInit(init: seq<Member>, last: Member)
    requires Extractable(init + [last])
    ensures Extractable(init) && GoodMember(last) && |init| < 100000 && SizeSum(init) + last.size <= 4294967296
  {
    var members, n := init + [last], |init|;
    assert members[..n] == init && members[n] == last;
    assert GoodMember(members[n]);
    CompatibleLast(init, last);
    forall i | 0 <= i < n ensures GoodMember(init[i]) {
      assert GoodMember(members[i]);
    }
  }

  lemma {:induction false} GoodExtracts(members: seq<Member>)
    requires Extractable(members)
    ensures ExtractedAll(NOTHING, members).Some?
  {
    if members != [] {
      var n := |members| - 1;
      var init, last := members[..n], members[n];
      assert members == init + [last];
      ExtractableInit(init, last);
      GoodExtracts(init);
      ExtractedTree(init);
      ExtractedNames(init);
      ExtractedSizes(init);
      var u := ExtractedAll(NOTHING, init).value;
      NextIsMade(u.tree, init, last);
      NextIsAdmitted(u, init, last);
    }
  }

  lemma NextIsAdmitted(u: Unpacking, init: seq<Member>, last: Member)
    requires SeenAre(u.seen, init) && |init| < 100000 && u.total + last.size <= 4294967296
    requires Compatible(init + [last]) && GoodMember(last)
    ensures Admissible(u, last)
  {
    RelativeIsGood(last.name);
    CompatibleLast(init, last);
  }

  // And only those.

  lemma ExtractedIsGood(u: Unpacking, m: Member)
    requires Extracted(u, m).Some?
    ensures GoodMember(m)
  {
    RelativeIsGood(m.name);
  }

  lemma {:induction false} AllAreGood(members: seq<Member>)
    requires ExtractedAll(NOTHING, members).Some?
    ensures forall m :: m in members ==> GoodMember(m)
  {
    if members != [] {
      var n := |members| - 1;
      var init, last := members[..n], members[n];
      AllAreGood(init);
      ExtractedIsGood(ExtractedAll(NOTHING, init).value, last);
      assert forall m :: m in members ==> m in init || m == last;
    }
  }

  lemma FilesHaveNoneBelow(tree: Tree, above: Member, below: Member)
    requires HasParents(tree) && Holds(tree, above) && below.name in tree
    requires above.name != [] && IsAbove(above.name, below.name)
    ensures above.kind.Directory?
  {
    ParentsAreDirs(tree, below.name, |above.name|);
  }

  /** Everything above what is in the tree is a directory in it. */
  ghost predicate HasParents(tree: Tree) {
    forall p :: p in tree && |p| > 1 ==> p[..|p| - 1] in tree && tree[p[..|p| - 1]].Dir?
  }

  lemma {:induction false} MakeDirsHasParents(tree: Tree, name: Name)
    requires HasParents(tree) && MakeDirs(tree, name).Some?
    ensures HasParents(MakeDirs(tree, name).value)
  {
    if name != [] {
      var init := name[..|name| - 1];
      MakeDirsHasParents(tree, init);
      MakeDirsAdds(tree, init);
    }
  }

  lemma {:induction false} TreesHaveParents(members: seq<Member>)
    requires ExtractedAll(NOTHING, members).Some?
    ensures HasParents(ExtractedAll(NOTHING, members).value.tree)
  {
    if members != [] {
      var init, last := members[..|members| - 1], members[|members| - 1];
      TreesHaveParents(init);
      var u := ExtractedAll(NOTHING, init).value;
      NextHasParents(u, last);
    }
  }

  lemma FileHasParents(tree: Tree, name: Name, file: Node)
    requires HasParents(tree) && name !in tree
    requires |name| > 1 ==> name[..|name| - 1] in tree && tree[name[..|name| - 1]].Dir?
    ensures HasParents(tree[name := file])
  {
  }

  lemma NextHasParents(u: Unpacking, m: Member)
    requires HasParents(u.tree) && Extracted(u, m).Some?
    ensures HasParents(Extracted(u, m).value.tree)
  {
    if m.kind.Directory? {
      MakeDirsHasParents(u.tree, m.name);
    } else {
      var parent := m.name[..|m.name| - 1];
      MakeDirsHasParents(u.tree, parent);
      MakeDirsAdds(u.tree, parent);
      var tree := MakeDirs(u.tree, parent).value;
      FileHasParents(tree, m.name, File(m.data[..m.size], m.executable));
    }
  }

  lemma {:induction false} ParentsAreDirs(tree: Tree, name: Name, n: nat)
    requires HasParents(tree) && name in tree && 0 < n < |name|
    ensures name[..n] in tree && tree[name[..n]].Dir?
    decreases |name|
  {
    var parent := name[..|name| - 1];
    if n < |parent| {
      ParentsAreDirs(tree, parent, n);
      assert parent[..n] == name[..n];
    }
  }

  lemma {:induction false} ExtractsOnlyGood(members: seq<Member>)
    requires ExtractedAll(NOTHING, members).Some?
    ensures Extractable(members)
  {
    ExtractedNames(members);
    ExtractedSizes(members);
    AllAreGood(members);
    ExtractedTree(members);
    TreesHaveParents(members);
    var tree := ExtractedAll(NOTHING, members).value.tree;
    forall i, j | 0 <= i < |members| && 0 <= j < |members| && IsAbove(members[i].name, members[j].name)
      ensures members[i].kind.Directory?
    {
      assert GoodMember(members[i]) && Holds(tree, members[i]) && Holds(tree, members[j]);
      FilesHaveNoneBelow(tree, members[i], members[j]);
    }
    forall i | 0 <= i < |members| ensures GoodMember(members[i]) {
      assert members[i] in members;
    }
  }

  // The whole archive.

  /** The member that is the file `name`. */
  predicate IsFile(m: Member, name: string) {
    m.name == [name] && m.kind.RegularFile?
  }

  /** Version 1, one to four revisions with their lock files, and the digest of this bundle. */
  predicate GoodManifest(m: Manifest, bundle: bytes) {
    && m.version == 1 && m.bundle == Digest(bundle)
    && 1 <= |m.revisions| <= 4
    && forall commit :: commit in m.revisions ==>
         |commit| == 40 && AllHex(commit) && |m.revisions[commit]| == 64 && AllHex(m.revisions[commit])
  }

  /** What a member has of its data. */
  function Content(m: Member): bytes {
    if 0 <= m.size <= |m.data| then m.data[..m.size] else []
  }

  /** The vendor directory, or what is below it. */
  predicate MakesVendor(m: Member) {
    m.name != [] && m.name[0] == "vendor" && (m.kind.Directory? || |m.name| > 1)
  }

  predicate FitEachOther(manifest: Member, bundle: Member, codec: Codec) {
    && IsFile(manifest, "manifest.json") && IsFile(bundle, "source.bundle") && |Content(manifest)| <= 65536
    && codec.decode(Content(manifest)).Some?
    && GoodManifest(codec.decode(Content(manifest)).value, Content(bundle))
  }

  /** The manifest and the bundle are files and fit each other, and the vendor directory is one. */
  ghost predicate GoodRoots(members: seq<Member>, codec: Codec) {
    && (exists m :: m in members && MakesVendor(m))
    && exists manifest, bundle :: manifest in members && bundle in members && FitEachOther(manifest, bundle, codec)
  }

  ghost predicate Acceptable(a: Archive, codec: Codec) {
    && a.compressed <= 536870912 && a.expanded <= 4294967296
    && Extractable(a.members) && GoodRoots(a.members, codec)
  }

  lemma ManifestIsGood(m: Manifest, bundle: bytes)
    ensures IsValid(m, bundle) <==> GoodManifest(m, bundle)
  {
    HexIs();
  }

  /** A file of the tree at one of the roots comes from the member of that name. */
  lemma RootFile(tree: Tree, members: seq<Member>, name: string) returns (m: Member)
    requires TreeIs(tree, members) && Extractable(members) && [name] in tree && tree[[name]].File?
    ensures m in members && IsFile(m, name) && Content(m) == tree[[name]].data
  {
    var i := FileIsMember(tree, members, [name]);
    m := members[i];
    assert Holds(tree, members[i]) && GoodMember(members[i]);
  }

  lemma MemberFile(tree: Tree, members: seq<Member>, m: Member, name: string)
    requires TreeIs(tree, members) && m in members && IsFile(m, name)
    ensures [name] in tree && tree[[name]].File? && tree[[name]].data == Content(m)
  {
    var i :| 0 <= i < |members| && members[i] == m;
    assert Holds(tree, members[i]);
  }

  lemma VendorComes(tree: Tree, members: seq<Member>) returns (m: Member)
    requires TreeIs(tree, members) && VENDOR in tree && tree[VENDOR].Dir?
    ensures m in members && MakesVendor(m)
  {
    var i := ComesFrom(tree, members, VENDOR);
    m := members[i];
    assert Holds(tree, members[i]);
    assert m.name[0] == VENDOR[0] == "vendor";
  }

  lemma VendorIsMade(tree: Tree, members: seq<Member>, m: Member)
    requires TreeIs(tree, members) && HasParents(tree) && m in members && MakesVendor(m)
    ensures VENDOR in tree && tree[VENDOR].Dir?
  {
    var i :| 0 <= i < |members| && members[i] == m;
    assert Holds(tree, members[i]);
    assert m.name[..1] == VENDOR;
    if |m.name| > 1 {
      ParentsAreDirs(tree, m.name, 1);
    } else {
      assert m.name == VENDOR;
    }
  }

  lemma CheckedIsGood(tree: Tree, members: seq<Member>, codec: Codec)
    requires TreeIs(tree, members) && Extractable(members) && Checked(tree, codec).Some?
    ensures GoodRoots(members, codec)
  {
    var vendor := VendorComes(tree, members);
    var manifest := RootFile(tree, members, "manifest.json");
    var bundle := RootFile(tree, members, "source.bundle");
    ManifestIsGood(codec.decode(Content(manifest)).value, Content(bundle));
    assert FitEachOther(manifest, bundle, codec);
  }

  lemma GoodIsChecked(tree: Tree, members: seq<Member>, codec: Codec, manifest: Member, bundle: Member, vendor: Member)
    requires TreeIs(tree, members) && HasParents(tree)
    requires manifest in members && bundle in members && FitEachOther(manifest, bundle, codec)
    requires vendor in members && MakesVendor(vendor)
    ensures Checked(tree, codec).Some?
  {
    MemberFile(tree, members, manifest, "manifest.json");
    MemberFile(tree, members, bundle, "source.bundle");
    ManifestIsGood(codec.decode(Content(manifest)).value, Content(bundle));
    VendorIsMade(tree, members, vendor);
  }

  lemma RootsAreChecked(tree: Tree, members: seq<Member>, codec: Codec)
    requires TreeIs(tree, members) && HasParents(tree) && Extractable(members)
    ensures Checked(tree, codec).Some? <==> GoodRoots(members, codec)
  {
    if Checked(tree, codec).Some? {
      CheckedIsGood(tree, members, codec);
    } else if GoodRoots(members, codec) {
      var vendor :| vendor in members && MakesVendor(vendor);
      var manifest, bundle :| manifest in members && bundle in members && FitEachOther(manifest, bundle, codec);
      GoodIsChecked(tree, members, codec, manifest, bundle, vendor);
    }
  }

  /** `unpack` accepts an archive if and only if it is within the limits, its members are files and empty directories of
      good and compatible names with all their data, and the manifest fits the bundle. */
  lemma UnpackAccepts(a: Archive, codec: Codec)
    ensures Unpacked(a, codec).Some? <==> Acceptable(a, codec)
  {
    if ExtractedAll(NOTHING, a.members).Some? {
      ExtractsOnlyGood(a.members);
      ExtractedTree(a.members);
      TreesHaveParents(a.members);
      RootsAreChecked(ExtractedAll(NOTHING, a.members).value.tree, a.members, codec);
    } else if Extractable(a.members) {
      GoodExtracts(a.members);
    }
  }

  // And what `package` accepts.

  /** `package` accepts a tree if and only if it has no special files and only good paths, and the numbers of paths and
      bytes, as it counts them, and the size of the package are within its limits. */
  lemma PackageAccepts(codec: Codec, manifest: Manifest, bundle: Bundle, listing: seq<Entry>, compressed: nat)
    requires listing != []
    ensures Packaged(codec, manifest, bundle, listing, compressed).Some? <==>
              && |listing| < 100000 && FileSize(bundle.item) + TotalSize(listing[1..]) <= 4294967296
              && compressed <= 536870912 && !bundle.item.ItemOther?
              && forall e :: e in listing ==>
                   !e.item.ItemOther? && (bundle.below == Some(e.path) || GoodPath(["vendor"] + e.path))
  {
    var walk := Walk(bundle, listing);
    FixedNames();
    assert Packable(walk[0]) <==> !bundle.item.ItemOther?;
    forall i | 0 <= i < |listing|
      ensures Packable(walk[i + 1]) <==>
                && !listing[i].item.ItemOther?
                && (bundle.below == Some(listing[i].path) || GoodPath(["vendor"] + listing[i].path))
    {
      RelativeIsGood(VENDOR + listing[i].path);
    }
    if AllPackable(walk) {
      forall e | e in listing
        ensures !e.item.ItemOther? && (bundle.below == Some(e.path) || GoodPath(["vendor"] + e.path))
      {
        var i :| 0 <= i < |listing| && listing[i] == e;
        assert Packable(walk[i + 1]);
      }
    } else {
      var k :| 0 <= k < |walk| && !Packable(walk[k]);
      assert k > 0 ==> listing[k - 1] in listing && !Packable(walk[k - 1 + 1]);
    }
  }
}
