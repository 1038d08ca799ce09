/** Trees that `package` accepts and `unpack` refuses, with the exact bounds: too many members, files with several
    links, a bundle below the vendor directory, and headers that only `unpack` counts. */
module SourcesLimits {
  import opened Common
  import opened Sources
  import opened SourcesProps

  /** The number at the front of a record is the length of the whole record. */
  lemma {:induction false} RecordCountsItself(l: nat, digits: nat)
    requires digits > 0 && Tens(digits - 1) <= l + digits
    ensures RecordLength(l, digits) == l + |Decimal(RecordLength(l, digits))|
    decreases l + digits - Tens(digits)
  {
    if l + digits < Tens(digits) {
      DecimalDigits(l + digits, digits);
    } else {
      TensGrow(digits);
      RecordCountsItself(l, digits + 1);
    }
  }

  lemma {:induction false} DecimalDigits(n: nat, k: nat)
    requires k > 0 && n < Tens(k) && (k == 1 || Tens(k - 1) <= n)
    ensures |Decimal(n)| == k
  {
    if n < 10 {
      if k > 1 {
        assert false;
      }
    } else {
      DecimalDigits(n / 10, k - 1);
    }
  }

  // The length of a tree with short names.

  /** Letters and digits, few enough for a header. */
  predicate IsPlainName(c: string) {
    1 <= |c| <= 90 && forall i :: 0 <= i < |c| ==> '0' <= c[i] <= '9' || 'a' <= c[i] <= 'z'
  }

  const VENDOR_DIR := Entry([], ItemDir)

  /** The vendor directory with files and directories of short names directly below it. */
  ghost predicate IsFlat(listing: seq<Entry>) {
    && listing != [] && listing[0] == VENDOR_DIR && DistinctPaths(listing)
    && forall i :: 0 < i < |listing| ==> IsFlatEntry(listing[i])
  }

  predicate IsFlatEntry(e: Entry) {
    |e.path| == 1 && IsPlainName(e.path[0]) && !e.item.ItemOther?
  }

  lemma FlatIsListing(listing: seq<Entry>)
    requires IsFlat(listing)
    ensures IsListing(listing)
  {
    forall i | 0 <= i < |listing| && listing[i].path != [] ensures HasParent(listing, i) {
      assert IsFlatEntry(listing[i]);
      assert listing[0] == Entry(listing[i].path[..|listing[i].path| - 1], ItemDir);
    }
  }

  lemma PlainNameFits(c: string)
    requires IsPlainName(c)
    ensures IsComponent(c) && |Text(VENDOR + [c])| == 7 + |c| && IsAscii(Text(VENDOR + [c]) + "/")
    ensures IsRelative(VENDOR + [c])
  {
    FixedNames();
    var name := VENDOR + [c];
    assert name[..1] == VENDOR && name[1] == c && Text(VENDOR) == "vendor";
    assert Text(name) == "vendor" + "/" + c;
    assert c[0] != '.';
    assert forall i :: 0 <= i < |name| ==> IsComponent(name[i]);
  }

  lemma FlatEntryFits(e: Entry)
    requires e == VENDOR_DIR || IsFlatEntry(e)
    ensures PackableEntry(e)
    ensures MemberLength(Plain(Named(VENDOR + e.path, e.item))) == 512 + Padded(FileSize(e.item))
  {
    if e == VENDOR_DIR {
      FixedNames();
      assert VENDOR + [] == VENDOR && Text(VENDOR) == "vendor";
    } else {
      assert e.path == [e.path[0]];
      PlainNameFits(e.path[0]);
      assert IsAscii(Text(VENDOR + e.path)) by {
        var text := Text(VENDOR + e.path);
        assert forall i :: 0 <= i < |text| ==> (text + "/")[i] == text[i];
      }
    }
  }

  /** The members of a flat tree have no extended headers. */
  function EntryLengths(listing: seq<Entry>): seq<int> {
    seq(|listing|, i requires 0 <= i < |listing| => 512 + Padded(FileSize(listing[i].item)))
  }

  lemma FlatLengths(listing: seq<Entry>)
    requires IsFlat(listing)
    ensures Lengths(VendorMembers(listing)) == EntryLengths(listing)
  {
    forall i | 0 <= i < |listing| ensures Lengths(VendorMembers(listing))[i] == EntryLengths(listing)[i] {
      FlatEntryFits(listing[i]);
    }
  }

  lemma {:induction false} TotalConcat(a: seq<int>, b: seq<int>)
    ensures Total(a + b) == Total(a) + Total(b)
  {
    if b == [] {
      assert a + b == a;
    } else {
      TotalConcat(a, b[..|b| - 1]);
      assert (a + b)[..|a + b| - 1] == a + b[..|b| - 1];
    }
  }

  lemma {:induction false} TotalConstant(ns: seq<int>, n: int)
    requires forall i :: 0 <= i < |ns| ==> ns[i] == n
    ensures Total(ns) == |ns| * n
  {
    if ns != [] {
      TotalConstant(ns[..|ns| - 1], n);
    }
  }

  lemma TotalOfTwo(a: int, b: int)
    ensures Total([a, b]) == a + b
  {
    assert [a, b][..1] == [a] && [a][..0] == [] && Total([a]) == a;
  }

  lemma LengthsConcat(a: seq<Member>, b: seq<Member>)
    ensures Lengths(a + b) == Lengths(a) + Lengths(b)
  {
    forall i | 0 <= i < |a + b| ensures Lengths(a + b)[i] == (Lengths(a) + Lengths(b))[i] {
      assert (a + b)[i] == if i < |a| then a[i] else b[i - |a|];
    }
  }

  lemma TopLength(m: Member)
    requires (m.name == MANIFEST || m.name == BUNDLE) && m.kind.RegularFile?
    ensures MemberLength(m) == 512 + Padded(m.size)
  {
  }

  lemma HeaderLengths(codec: Codec, manifest: Manifest, bundle: Item)
    requires bundle.ItemFile?
    ensures Lengths(Header(codec, manifest, bundle))
         == [512 + Padded(|codec.encode(manifest)|), 512 + Padded(|bundle.data|)]
  {
    var h := Header(codec, manifest, bundle);
    TopLength(h[0]);
    TopLength(h[1]);
  }

  /** A valid manifest for a bundle that is not below the vendor directory, both within `unpack`'s limits. */
  ghost predicate IsReady(codec: Codec, manifest: Manifest, bundle: Bundle) {
    && codec.RoundTrips() && |codec.encode(manifest)| <= MAX_MANIFEST_BYTES
    && bundle.item.ItemFile? && |bundle.item.data| <= MAX_INPUT_BYTES && bundle.below.None?
    && IsValid(manifest, bundle.item.data)
  }

  /** What is read of the tar stream of a flat tree, up to the end of the last record. */
  function FlatLength(codec: Codec, manifest: Manifest, bundle: Bundle, listing: seq<Entry>): int
    requires bundle.item.ItemFile?
  {
    Padded(|codec.encode(manifest)|) + Padded(|bundle.item.data|) + Total(EntryLengths(listing)) + 3 * 512
  }

  lemma {:induction false} FlatLengthIs(codec: Codec, manifest: Manifest, bundle: Bundle, listing: seq<Entry>)
    requires bundle.item.ItemFile? && IsFlat(listing)
    ensures Total(Lengths(Header(codec, manifest, bundle.item) + VendorMembers(listing))) + 512
         == FlatLength(codec, manifest, bundle, listing)
  {
    var a, b := Lengths(Header(codec, manifest, bundle.item)), Lengths(VendorMembers(listing));
    LengthsConcat(Header(codec, manifest, bundle.item), VendorMembers(listing));
    TotalConcat(a, b);
    HeaderLengths(codec, manifest, bundle.item);
    TotalOfTwo(a[0], a[1]);
    FlatLengths(listing);
  }

  lemma ExpandedIs(members: seq<Member>, n: int)
    requires Total(Lengths(members)) + 512 == n
    ensures Expanded(members) == Records(n)
  {
  }

  lemma {:induction false} FlatTotal(codec: Codec, manifest: Manifest, bundle: Bundle, listing: seq<Entry>)
    requires bundle.item.ItemFile? && bundle.below.None? && IsFlat(listing) && LinkFree(Walk(bundle, listing))
    ensures Total(Lengths(Members(codec, manifest, Walk(bundle, listing)))) + 512
         == FlatLength(codec, manifest, bundle, listing)
  {
    PlainMembers(codec, manifest, bundle, listing);
    FlatLengthIs(codec, manifest, bundle, listing);
  }

  lemma FlatPackable(bundle: Bundle, listing: seq<Entry>)
    requires bundle.item.ItemFile? && IsFlat(listing)
    ensures AllPackable(Walk(bundle, listing))
  {
    FixedNames();
    var walk := Walk(bundle, listing);
    forall i | 0 <= i < |walk| ensures Packable(walk[i]) {
      if i > 0 {
        FlatEntryFits(listing[i - 1]);
      }
    }
  }

  lemma {:induction false} TotalSizeSplit(listing: seq<Entry>)
    requires listing != []
    ensures TotalSize(listing) == FileSize(listing[0].item) + TotalSize(listing[1..])
  {
    var n := |listing| - 1;
    if n == 0 {
      assert listing[1..] == [] && listing[..0] == [];
    } else {
      TotalSizeSplit(listing[..n]);
      assert listing[1..][..n - 1] == listing[..n][1..];
    }
  }

  /** What becomes of a flat tree: when it is packed, and when it comes out again. */
  lemma {:induction false} FlatTree(codec: Codec, manifest: Manifest, bundle: Bundle, listing: seq<Entry>,
                                    compressed: nat)
    requires IsReady(codec, manifest, bundle) && IsFlat(listing) && compressed <= MAX_INPUT_BYTES
    requires |listing| < MAX_FILES && FileSize(bundle.item) + TotalSize(listing) <= MAX_EXPANDED_BYTES
    ensures IsListing(listing) && Packaged(codec, manifest, bundle, listing, compressed).Some?
    ensures Unpacked(Packaged(codec, manifest, bundle, listing, compressed).value, codec).Some? <==>
              && LinkFree(Walk(bundle, listing)) && Limits(codec, manifest, bundle.item, listing)
              && FlatLength(codec, manifest, bundle, listing) <= 419430 * 10240
  {
    FlatIsListing(listing);
    FlatPackable(bundle, listing);
    TotalSizeSplit(listing);
    RoundTrip(codec, manifest, bundle, listing, compressed);
    if LinkFree(Walk(bundle, listing)) {
      FlatTotal(codec, manifest, bundle, listing);
      ExpandedIs(Members(codec, manifest, Walk(bundle, listing)), FlatLength(codec, manifest, bundle, listing));
      RecordsWithin(FlatLength(codec, manifest, bundle, listing));
    }
  }

  /** 4 GiB is not a whole number of records. */
  lemma RecordsWithin(n: int)
    ensures Records(n) <= MAX_EXPANDED_BYTES <==> n <= 419430 * 10240
  {
  }

  function FileSizes(listing: seq<Entry>): seq<int> {
    seq(|listing|, i requires 0 <= i < |listing| => FileSize(listing[i].item))
  }

  lemma {:induction false} TotalSizeIs(listing: seq<Entry>)
    ensures TotalSize(listing) == Total(FileSizes(listing))
  {
    if listing != [] {
      var n := |listing| - 1;
      TotalSizeIs(listing[..n]);
      assert FileSizes(listing)[..n] == FileSizes(listing[..n]);
    }
  }

  // Headers count in `unpack` only.

  lemma {:induction false} LengthsExceedSizes(members: seq<Member>)
    requires forall m :: m in members ==> m.size >= 0
    ensures Total(Lengths(members)) >= SizeSum(members) + 512 * |members|
  {
    if members != [] {
      var n := |members| - 1;
      LengthsExceedSizes(members[..n]);
      assert Lengths(members)[..n] == Lengths(members[..n]);
    }
  }

  lemma SizesAreNat(codec: Codec, manifest: Manifest, bundle: Item, listing: seq<Entry>)
    ensures forall m :: m in Header(codec, manifest, bundle) + VendorMembers(listing) ==> m.size >= 0
  {
  }

  lemma {:induction false} PackedLengths(codec: Codec, manifest: Manifest, bundle: Item, listing: seq<Entry>)
    ensures Total(Lengths(Header(codec, manifest, bundle) + VendorMembers(listing)))
         >= |codec.encode(manifest)| + FileSize(bundle) + TotalSize(listing) + 512 * (|listing| + 2)
  {
    var members := Header(codec, manifest, bundle) + VendorMembers(listing);
    assert SizeSum(members) == |codec.encode(manifest)| + FileSize(bundle) + TotalSize(listing) by {
      PackedSizes(codec, manifest, bundle, listing);
    }
    SizesAreNat(codec, manifest, bundle, listing);
    LengthsExceedSizes(members);
  }

  lemma {:induction false} WithinRecords(members: seq<Member>)
    requires Expanded(members) <= MAX_EXPANDED_BYTES
    ensures Total(Lengths(members)) + 512 <= 419430 * 10240
  {
    RecordsWithin(Total(Lengths(members)) + 512);
  }

  /** Whatever tree comes out again: its data together with a block for every member and for the end mark fills at most
      419430 records, which is less than 4 GiB. */
  lemma {:induction false} HeadersCount(codec: Codec, manifest: Manifest, bundle: Bundle, listing: seq<Entry>,
                                        compressed: nat)
    requires codec.RoundTrips() && IsListing(listing) && listing != []
    requires Packaged(codec, manifest, bundle, listing, compressed).Some?
    requires Unpacked(Packaged(codec, manifest, bundle, listing, compressed).value, codec).Some?
    ensures |codec.encode(manifest)| + FileSize(bundle.item) + TotalSize(listing) + 512 * (|listing| + 3)
            <= 419430 * 10240 < MAX_EXPANDED_BYTES
  {
    RoundTrip(codec, manifest, bundle, listing, compressed);
    PlainMembers(codec, manifest, bundle, listing);
    PackedLengths(codec, manifest, bundle.item, listing);
    WithinRecords(Members(codec, manifest, Walk(bundle, listing)));
  }

  /** Seven files of 512 MiB each, and another one. */
  function Bulk(rest: nat): seq<Entry> {
    [VENDOR_DIR] +
    seq(8, i requires 0 <= i < 8 =>
      Entry([Decimal(i)], ItemFile(Zeros(if i < 7 then MAX_INPUT_BYTES else rest), false, i, 1)))
  }

  function Zeros(n: nat): bytes {
    seq(n, _ => 0)
  }

  lemma BulkIsFlat(rest: nat)
    ensures IsFlat(Bulk(rest))
  {
    var bulk := Bulk(rest);
    forall i | 0 < i < |bulk| ensures IsFlatEntry(bulk[i]) {
      DigitIsPlain(i - 1);
    }
    forall i, j | 0 <= i < j < |bulk| ensures bulk[i].path != bulk[j].path {
      if i > 0 {
        DecimalValue(i - 1);
        DecimalValue(j - 1);
      }
    }
  }

  lemma DigitIsPlain(i: nat)
    requires i < MAX_FILES
    ensures IsPlainName(Decimal(i))
  {
    DecimalValue(i);
    DecimalLength(i, 5) by {
      assert Tens(1) == 10 && Tens(2) == 100 && Tens(3) == 1000 && Tens(4) == 10000 && Tens(5) == 100000;
    }
    DecimalIsLong(i);
  }

  lemma DecimalIsLong(n: nat)
    ensures |Decimal(n)| > 0
  {
  }

  lemma BulkAt(rest: nat, i: nat)
    requires i < 8
    ensures Bulk(rest)[i + 1].item.ItemFile? && Bulk(rest)[i + 1].item.links == 1
    ensures FileSize(Bulk(rest)[i + 1].item) == if i < 7 then MAX_INPUT_BYTES else rest
  {
    var size := if i < 7 then MAX_INPUT_BYTES else rest;
    assert |Zeros(size)| == size;
    assert Bulk(rest)[i + 1] == Entry([Decimal(i)], ItemFile(Zeros(size), false, i, 1));
  }

  lemma BulkTotals(rest: nat)
    ensures TotalSize(Bulk(rest)) == 7 * MAX_INPUT_BYTES + rest
    ensures Total(EntryLengths(Bulk(rest))) == 9 * 512 + 7 * MAX_INPUT_BYTES + Padded(rest)
  {
    var bulk, sizes, lengths := Bulk(rest), FileSizes(Bulk(rest)), EntryLengths(Bulk(rest));
    assert sizes[0] == 0 && lengths[0] == 512;
    forall i | 0 < i < 9
      ensures sizes[i] == if i < 8 then MAX_INPUT_BYTES else rest
      ensures lengths[i] == 512 + Padded(sizes[i])
    {
      BulkAt(rest, i - 1);
    }
    TotalSizeIs(bulk);
    SevenBetween(sizes, MAX_INPUT_BYTES);
    SevenBetween(lengths, 512 + MAX_INPUT_BYTES);
  }

  lemma SevenBetween(ns: seq<int>, n: int)
    requires |ns| == 9 && forall i :: 0 < i < 8 ==> ns[i] == n
    ensures Total(ns) == ns[0] + 7 * n + ns[8]
  {
    assert ns == [ns[0]] + ns[1..8] + [ns[8]];
    TotalConstant(ns[1..8], n);
    TotalConcat([ns[0]], ns[1..8]);
    TotalConcat([ns[0]] + ns[1..8], [ns[8]]);
    TotalConstant([ns[0]], ns[0]);
    TotalConstant([ns[8]], ns[8]);
  }

  lemma BulkFiles(bundle: Bundle, rest: nat)
    requires rest <= MAX_INPUT_BYTES
    ensures LinkFree(Walk(bundle, Bulk(rest)))
    ensures forall i :: 0 <= i < |Bulk(rest)| ==> FileSize(Bulk(rest)[i].item) <= MAX_INPUT_BYTES
  {
    var walk := Walk(bundle, Bulk(rest));
    forall i, j | 0 <= i < j < |walk| ensures !SecondLink(walk[i].item, walk[j].item) {
      assert walk[j].item == Bulk(rest)[j - 1].item;
      if j > 1 {
        BulkAt(rest, j - 2);
      }
    }
    forall i | 0 <= i < |Bulk(rest)| ensures FileSize(Bulk(rest)[i].item) <= MAX_INPUT_BYTES {
      if i > 0 {
        BulkAt(rest, i - 1);
      }
    }
  }

  /** `package` counts the data of a tree, `unpack` also the headers and the padding: in the last 10 KiB below 4 GiB
      these decide. */
  lemma {:induction false} HeadersDecide(codec: Codec, manifest: Manifest, bundle: Bundle, rest: nat, compressed: nat)
    requires IsReady(codec, manifest, bundle) && compressed <= MAX_INPUT_BYTES && rest <= MAX_INPUT_BYTES
    requires |bundle.item.data| + 7 * MAX_INPUT_BYTES + rest <= MAX_EXPANDED_BYTES
    ensures var a := Packaged(codec, manifest, bundle, Bulk(rest), compressed);
            && IsListing(Bulk(rest)) && a.Some?
            && (Unpacked(a.value, codec).Some? <==>
                  Padded(|codec.encode(manifest)|) + Padded(|bundle.item.data|) + 7 * MAX_INPUT_BYTES + Padded(rest)
                  + 12 * 512 <= 419430 * 10240)
            && (|codec.encode(manifest)| + |bundle.item.data| + 7 * MAX_INPUT_BYTES + rest + 10240 > MAX_EXPANDED_BYTES ==>
                  Unpacked(a.value, codec).None?)
  {
    BulkIsFlat(rest);
    BulkTotals(rest);
    BulkFiles(bundle, rest);
    FlatTree(codec, manifest, bundle, Bulk(rest), compressed);
  }

  // Files with several links, and a bundle below the vendor directory.

  function Pair(first: Item, second: Item): seq<Entry> {
    [VENDOR_DIR, Entry(["a"], first), Entry(["b"], second)]
  }

  lemma PairTotals(first: Item, second: Item)
    ensures TotalSize(Pair(first, second)) == FileSize(first) + FileSize(second)
    ensures Total(EntryLengths(Pair(first, second))) == 3 * 512 + Padded(FileSize(first)) + Padded(FileSize(second))
  {
    var pair := Pair(first, second);
    TotalSizeIs(pair);
    assert FileSizes(pair) == [0] + [FileSize(first), FileSize(second)];
    ThreeTotal(0, FileSize(first), FileSize(second));
    assert EntryLengths(pair) == [512] + [512 + Padded(FileSize(first)), 512 + Padded(FileSize(second))];
    ThreeTotal(512, 512 + Padded(FileSize(first)), 512 + Padded(FileSize(second)));
  }

  lemma ThreeTotal(a: int, b: int, c: int)
    ensures Total([a] + [b, c]) == a + b + c
  {
    TotalConstant([a], a);
    TotalConcat([a], [b, c]);
    TotalOfTwo(b, c);
  }

  lemma PairIsFlat(first: Item, second: Item)
    requires !first.ItemOther? && !second.ItemOther?
    ensures IsFlat(Pair(first, second))
  {
    var pair := Pair(first, second);
    assert IsFlatEntry(pair[1]) && IsFlatEntry(pair[2]);
    assert pair[1].path[0] != pair[2].path[0];
  }

  lemma PairIsLinkFree(bundle: Bundle, first: Item, second: Item)
    requires bundle.below.None?
    ensures LinkFree(Walk(bundle, Pair(first, second))) <==>
              !SecondLink(bundle.item, first) && !SecondLink(bundle.item, second) && !SecondLink(first, second)
  {
    var walk := Walk(bundle, Pair(first, second));
    assert walk[0].item == bundle.item && walk[1].item == ItemDir && walk[2].item == first && walk[3].item == second;
  }

  /** Two files with several links each, neither of them the bundle: `package` accepts them, and `unpack` takes them
      exactly if they are not the same file. */
  lemma {:induction false} LinksAreRefused(codec: Codec, manifest: Manifest, bundle: Bundle,
                                           first: Item, second: Item, compressed: nat)
    requires IsReady(codec, manifest, bundle) && compressed <= MAX_INPUT_BYTES
    requires first.ItemFile? && second.ItemFile? && first.links > 1 && second.links > 1
    requires |first.data| <= MAX_INPUT_BYTES && |second.data| <= MAX_INPUT_BYTES
    requires bundle.item.inode != first.inode && bundle.item.inode != second.inode
    ensures var a := Packaged(codec, manifest, bundle, Pair(first, second), compressed);
            && IsListing(Pair(first, second)) && a.Some?
            && (Unpacked(a.value, codec).Some? <==> first.inode != second.inode)
  {
    PairIsFlat(first, second);
    PairTotals(first, second);
    PairIsLinkFree(bundle, first, second);
    FlatTree(codec, manifest, bundle, Pair(first, second), compressed);
  }

  /** A bundle that is also packed below the vendor directory, because its path is spelled otherwise there, comes out
      under both names. */
  lemma {:induction false} BundleIsPackedTwice(codec: Codec, manifest: Manifest, bundle: Bundle, compressed: nat)
    requires IsReady(codec, manifest, bundle) && bundle.item.links == 1 && compressed <= MAX_INPUT_BYTES
    ensures var a := Packaged(codec, manifest, bundle, Pair(bundle.item, ItemDir), compressed);
            a.Some? && Unpacked(a.value, codec).Some?
  {
    PairIsFlat(bundle.item, ItemDir);
    PairTotals(bundle.item, ItemDir);
    PairIsLinkFree(bundle, bundle.item, ItemDir);
    FlatTree(codec, manifest, bundle, Pair(bundle.item, ItemDir), compressed);
  }

  lemma BelowIsPackable(item: Item)
    requires item.ItemFile?
    ensures AllPackable(Walk(Bundle(item, Some(["a"])), Pair(item, ItemDir)))
  {
    FixedNames();
    PairIsFlat(item, ItemDir);
    var walk := Walk(Bundle(item, Some(["a"])), Pair(item, ItemDir));
    FlatEntryFits(Pair(item, ItemDir)[0]);
    FlatEntryFits(Pair(item, ItemDir)[2]);
    forall i | 0 <= i < |walk| ensures Packable(walk[i]) {
      assert i < 2 || i == 2 || i == 3;
    }
  }

  /** A bundle whose path is met below the vendor directory gets the same name twice, and is refused. */
  lemma {:induction false} BundleBelowIsRefused(codec: Codec, manifest: Manifest, item: Item, compressed: nat)
    requires IsReady(codec, manifest, Bundle(item, None)) && compressed <= MAX_INPUT_BYTES
    ensures var a := Packaged(codec, manifest, Bundle(item, Some(["a"])), Pair(item, ItemDir), compressed);
            IsListing(Pair(item, ItemDir)) && a.Some? && Unpacked(a.value, codec).None?
  {
    var bundle, listing := Bundle(item, Some(["a"])), Pair(item, ItemDir);
    PairIsFlat(item, ItemDir);
    FlatIsListing(listing);
    PairTotals(item, ItemDir);
    TotalSizeSplit(listing);
    BelowIsPackable(item);
    RoundTrip(codec, manifest, bundle, listing, compressed);
    assert !Apart(bundle, listing) by {
      assert listing[1].path == ["a"];
    }
  }

  // The count that `package` checks leaves out two members.

  /** As many empty directories as `package` admits. */
  function Crowd(n: nat): seq<Entry> {
    [VENDOR_DIR] + seq(n, i requires 0 <= i < n => Entry([Decimal(i)], ItemDir))
  }

  lemma CrowdIsFlat(n: nat)
    requires n <= MAX_FILES
    ensures IsFlat(Crowd(n))
  {
    var crowd := Crowd(n);
    forall i | 0 < i < |crowd| ensures IsFlatEntry(crowd[i]) {
      DigitIsPlain(i - 1);
    }
    forall i, j | 0 <= i < j < |crowd| ensures crowd[i].path != crowd[j].path {
      if i > 0 {
        DecimalValue(i - 1);
        DecimalValue(j - 1);
      }
    }
  }

  lemma CrowdTotals(n: nat)
    ensures TotalSize(Crowd(n)) == 0 && Total(EntryLengths(Crowd(n))) == (n + 1) * 512
  {
    TotalSizeIs(Crowd(n));
    TotalConstant(FileSizes(Crowd(n)), 0);
    TotalConstant(EntryLengths(Crowd(n)), 512);
  }

  lemma {:induction false} CrowdLimits(codec: Codec, manifest: Manifest, bundle: Bundle, n: nat)
    requires IsReady(codec, manifest, bundle) && n <= MAX_FILES - 2
    ensures LinkFree(Walk(bundle, Crowd(n)))
    ensures Limits(codec, manifest, bundle.item, Crowd(n)) <==> n <= MAX_FILES - 3
    ensures FlatLength(codec, manifest, bundle, Crowd(n)) <= 419430 * 10240
  {
    var crowd := Crowd(n);
    CrowdTotals(n);
    forall i | 0 <= i < |crowd| ensures FileSize(crowd[i].item) == 0 && !SecondLink(bundle.item, crowd[i].item) {
      assert crowd[i].item == ItemDir;
    }
  }

  lemma {:induction false} CrowdTree(codec: Codec, manifest: Manifest, bundle: Bundle, n: nat, compressed: nat)
    requires IsReady(codec, manifest, bundle) && compressed <= MAX_INPUT_BYTES && n <= MAX_FILES - 2
    ensures var a := Packaged(codec, manifest, bundle, Crowd(n), compressed);
            && IsListing(Crowd(n)) && a.Some?
            && (Unpacked(a.value, codec).Some? <==> n <= MAX_FILES - 3)
  {
    CrowdIsFlat(n);
    CrowdTotals(n);
    CrowdLimits(codec, manifest, bundle, n);
    FlatTree(codec, manifest, bundle, Crowd(n), compressed);
  }

  /** A valid manifest and bundle packed with 99998 empty directories below `vendor`: `package` accepts them, `unpack`
      refuses the 100001 members; with one directory fewer it takes them. */
  lemma {:induction false} PackageCanExceedUnpack(codec: Codec, manifest: Manifest, bundle: Bundle, compressed: nat)
    requires IsReady(codec, manifest, bundle) && compressed <= MAX_INPUT_BYTES
    ensures var a := Packaged(codec, manifest, bundle, Crowd(99998), compressed);
            IsListing(Crowd(99998)) && a.Some? && Unpacked(a.value, codec).None?
    ensures var a := Packaged(codec, manifest, bundle, Crowd(99997), compressed);
            IsListing(Crowd(99997)) && a.Some? && Unpacked(a.value, codec).Some?
  {
    CrowdTree(codec, manifest, bundle, 99998, compressed);
    CrowdTree(codec, manifest, bundle, 99997, compressed);
  }
}
