/** Listing and reading the tracked files that go into the source archive (`_list_tree`, `_read_sources`). */
module SourceTree {
  import opened Outcomes
  import opened SourceArchive
  import opened Text

  /** One record of `git ls-tree`; the size is missing when it is not decimal. */
  datatype Record = Malformed | Record(path: string, mode: string, objectType: string, objectId: string,
      size: Option<nat>)

  datatype TreeEntry = TreeEntry(path: string, mode: nat, objectId: string, size: nat)

  const REGULAR := "100644"
  const EXECUTABLE := "100755"

  predicate HexId(s: string) {
    40 <= |s| <= 64 && forall i :: 0 <= i < |s| ==> '0' <= s[i] <= '9' || 'a' <= s[i] <= 'f'
  }

  /** What is asked of one record; `valid` is the path policy. */
  predicate RecordOk(names: Names, policy: Policy, valid: string -> bool, commit: string, r: Record) {
    && r.Record? && valid(r.path) && names.encodedLength(MemberPath(commit, r.path)) <= policy.maxPath
    && r.mode in {REGULAR, EXECUTABLE} && r.objectType == "blob" && HexId(r.objectId)
    && r.size.Some? && r.size.value <= policy.maxFile
  }

  function EntryOf(r: Record): TreeEntry
    requires r.Record? && r.size.Some?
  {
    TreeEntry(r.path, if r.mode == EXECUTABLE then 0x81ED else 0x81A4, r.objectId, r.size.value)
  }

  function TreeSize(rs: seq<Record>): nat {
    if rs == [] then 0
    else
      var last := rs[|rs| - 1];
      TreeSize(rs[..|rs| - 1]) + if last.Record? && last.size.Some? then last.size.value else 0
  }

  predicate GoodUpTo(names: Names, policy: Policy, valid: string -> bool, commit: string, rs: seq<Record>, n: nat)
    requires n <= |rs|
  {
    && (forall i :: 0 <= i < n ==> RecordOk(names, policy, valid, commit, rs[i]))
    && (forall i, j :: 0 <= i < j < n && rs[i].Record? && rs[j].Record? ==>
         names.portable(rs[i].path) != names.portable(rs[j].path))
  }

  /** What listing checks, all at once: every record, the number and the size of all, and that no two paths collide. */
  predicate Listable(names: Names, policy: Policy, valid: string -> bool, commit: string, rs: seq<Record>) {
    1 <= |rs| <= policy.maxEntries && TreeSize(rs) <= policy.maxTotal
        && GoodUpTo(names, policy, valid, commit, rs, |rs|)
  }

  predicate SortedByPath(entries: seq<TreeEntry>) {
    forall i, j :: 0 <= i < j < |entries| ==> Less(entries[i].path, entries[j].path)
  }

  function Inserted(entries: seq<TreeEntry>, e: TreeEntry): seq<TreeEntry> {
    if entries == [] then [e]
    else if Less(e.path, entries[0].path) then [e] + entries
    else [entries[0]] + Inserted(entries[1..], e)
  }

  lemma PrependIsSorted(first: TreeEntry, q: seq<TreeEntry>)
    requires SortedByPath(q) && forall i :: 0 <= i < |q| ==> Less(first.path, q[i].path)
    ensures SortedByPath([first] + q)
  {
    hide Less;
  }

  lemma {:induction false} InsertedIsSorted(entries: seq<TreeEntry>, e: TreeEntry)
    requires SortedByPath(entries) && forall i :: 0 <= i < |entries| ==> entries[i].path != e.path
    ensures SortedByPath(Inserted(entries, e))
    ensures multiset(Inserted(entries, e)) == multiset(entries) + multiset{e}
  {
    hide Less;
    if entries != [] {
      var first, rest := entries[0], entries[1..];
      assert entries == [first] + rest;
      if Less(e.path, first.path) {
        forall j | 0 <= j < |entries| ensures Less(e.path, entries[j].path) {
          if j > 0 { LessIsTransitive(e.path, first.path, entries[j].path); }
        }
        PrependIsSorted(e, entries);
      } else {
        LessIsTotal(e.path, first.path);
        InsertedIsSorted(rest, e);
        var q := Inserted(rest, e);
        forall k | 0 <= k < |q| ensures Less(first.path, q[k].path) {
          assert q[k] in multiset(q);
          if q[k] != e {
            assert q[k] in multiset(rest);
            var l :| 0 <= l < |rest| && rest[l] == q[k];
            assert entries[l + 1] == q[k];
          }
        }
        PrependIsSorted(first, q);
      }
    }
  }

  function EntriesSize(entries: seq<TreeEntry>): nat {
    if entries == [] then 0 else EntriesSize(entries[..|entries| - 1]) + entries[|entries| - 1].size
  }

  lemma {:induction false} SizeOfPrepended(first: TreeEntry, q: seq<TreeEntry>)
    ensures EntriesSize([first] + q) == first.size + EntriesSize(q)
  {
    if q == [] {
      assert [first] + q == [first] && [first][..0] == [];
    } else {
      assert ([first] + q)[..|q|] == [first] + q[..|q| - 1];
      SizeOfPrepended(first, q[..|q| - 1]);
    }
  }

  lemma {:induction false} SizeOfInserted(entries: seq<TreeEntry>, e: TreeEntry)
    ensures EntriesSize(Inserted(entries, e)) == EntriesSize(entries) + e.size
  {
    hide Less;
    if entries == [] {
      SizeOfPrepended(e, []);
      assert [e] + [] == [e];
    } else {
      assert entries == [entries[0]] + entries[1..];
      SizeOfPrepended(e, entries);
      SizeOfPrepended(entries[0], entries[1..]);
      SizeOfPrepended(entries[0], Inserted(entries[1..], e));
      SizeOfInserted(entries[1..], e);
    }
  }

  lemma SizeOfPrefix(entries: seq<TreeEntry>, i: nat)
    requires i < |entries|
    ensures EntriesSize(entries[..i + 1]) == EntriesSize(entries[..i]) + entries[i].size
  {
    assert entries[..i + 1][..i] == entries[..i];
  }

  lemma TreeSizeOfPrefix(rs: seq<Record>, i: nat)
    requires i < |rs| && rs[i].Record? && rs[i].size.Some?
    ensures TreeSize(rs[..i + 1]) == TreeSize(rs[..i]) + rs[i].size.value
  {
    assert rs[..i + 1][..i] == rs[..i];
  }

  /** `sorted` by path; the byte order of UTF-8 is the order of code points. */
  method SortByPath(entries: seq<TreeEntry>) returns (sorted: seq<TreeEntry>)
    requires forall i, j :: 0 <= i < j < |entries| ==> entries[i].path != entries[j].path
    ensures SortedByPath(sorted) && multiset(sorted) == multiset(entries)
    ensures EntriesSize(sorted) == EntriesSize(entries)
  {
    hide Less, SortedByPath, EntriesSize, Inserted;
    sorted := [];
    NothingUnsorted();
    for i := 0 to |entries|
      invariant SortedByPath(sorted) && multiset(sorted) == multiset(entries[..i])
      invariant EntriesSize(sorted) == EntriesSize(entries[..i])
    {
      forall k | 0 <= k < |sorted| ensures sorted[k].path != entries[i].path {
        assert sorted[k] in multiset(entries[..i]);
      }
      InsertedIsSorted(sorted, entries[i]);
      SizeOfInserted(sorted, entries[i]);
      SizeOfPrefix(entries, i);
      assert entries[..i + 1] == entries[..i] + [entries[i]];
      sorted := Inserted(sorted, entries[i]);
    }
    assert entries[..|entries|] == entries;
  }

  lemma NothingUnsorted()
    ensures SortedByPath([]) && EntriesSize([]) == 0
  {}

  function Paths(rs: seq<Record>, n: nat): set<string>
    requires n <= |rs|
  {
    set i | 0 <= i < n && rs[i].Record? :: rs[i].path
  }

  function PortablePaths(names: Names, rs: seq<Record>, n: nat): set<string>
    requires n <= |rs|
  {
    set i | 0 <= i < n && rs[i].Record? :: names.portable(rs[i].path)
  }

  lemma GoodSteps(names: Names, policy: Policy, valid: string -> bool, commit: string, rs: seq<Record>, i: nat)
    requires i < |rs| && GoodUpTo(names, policy, valid, commit, rs, i)
    ensures GoodUpTo(names, policy, valid, commit, rs, i + 1) <==>
              RecordOk(names, policy, valid, commit, rs[i])
                  && names.portable(rs[i].path) !in PortablePaths(names, rs, i)
    ensures rs[i].Record? ==> Paths(rs, i + 1) == Paths(rs, i) + {rs[i].path}
    ensures rs[i].Record? ==>
            PortablePaths(names, rs, i + 1) == PortablePaths(names, rs, i) + {names.portable(rs[i].path)}
    ensures rs[i].Record? && rs[i].path in Paths(rs, i) ==> names.portable(rs[i].path) in PortablePaths(names, rs, i)
  {
    RecordOkIsRecord(names, policy, valid, commit, rs[i]);
    hide RecordOk;
    if GoodUpTo(names, policy, valid, commit, rs, i + 1) {
      forall k | 0 <= k < i && rs[k].Record? ensures names.portable(rs[k].path) != names.portable(rs[i].path) {}
    }
  }

  lemma RecordOkIsRecord(names: Names, policy: Policy, valid: string -> bool, commit: string, r: Record)
    ensures RecordOk(names, policy, valid, commit, r) ==> r.Record? && r.size.Some?
  {}

  lemma GoodStops(names: Names, policy: Policy, valid: string -> bool, commit: string, rs: seq<Record>, n: nat)
    requires n <= |rs| && !GoodUpTo(names, policy, valid, commit, rs, n)
    ensures !GoodUpTo(names, policy, valid, commit, rs, |rs|)
  {
    hide RecordOk;
  }

  lemma {:induction false} TreeSizeGrows(rs: seq<Record>, n: nat)
    requires n <= |rs|
    ensures TreeSize(rs[..n]) <= TreeSize(rs)
  {
    if n < |rs| {
      assert rs[..|rs| - 1][..n] == rs[..n];
      TreeSizeGrows(rs[..|rs| - 1], n);
    } else {
      assert rs[..n] == rs;
    }
  }

  /** What a listing returns: the entries of all records, sorted by path. */
  predicate Lists(entries: seq<TreeEntry>, rs: seq<Record>) {
    && SortedByPath(entries) && |entries| == |rs|
    && (forall i :: 0 <= i < |rs| ==> rs[i].Record? && rs[i].size.Some? && EntryOf(rs[i]) in entries)
    && (forall e :: e in entries ==>
        exists i :: 0 <= i < |rs| && rs[i].Record? && rs[i].size.Some? && EntryOf(rs[i]) == e)
  }

  /** `_list_tree`. */
  method ListTree(names: Names, policy: Policy, valid: string -> bool, commit: string, rs: seq<Record>)
    returns (listed: Option<seq<TreeEntry>>)
    ensures listed.Some? <==> Listable(names, policy, valid, commit, rs)
    ensures listed.Some? ==> Lists(listed.value, rs) && EntriesSize(listed.value) == TreeSize(rs)
  {
    hide RecordOk, GoodUpTo, Paths, PortablePaths, EntriesSize, TreeSize, Lists;
    if |rs| > policy.maxEntries { return None; }
    var entries := [];
    var seen, seenPortable, total := Paths(rs, 0), PortablePaths(names, rs, 0), 0;
    NothingListed(names, policy, valid, commit, rs);
    for i := 0 to |rs|
      invariant GoodUpTo(names, policy, valid, commit, rs, i)
      invariant seen == Paths(rs, i) && seenPortable == PortablePaths(names, rs, i)
      invariant total == TreeSize(rs[..i]) <= policy.maxTotal
      invariant |entries| == i && EntriesSize(entries) == total
      invariant forall k :: 0 <= k < i ==> rs[k].Record? && rs[k].size.Some? && entries[k] == EntryOf(rs[k])
    {
      GoodSteps(names, policy, valid, commit, rs, i);
      RecordOkIsRecord(names, policy, valid, commit, rs[i]);
      if !GoodUpTo(names, policy, valid, commit, rs, i + 1) { GoodStops(names, policy, valid, commit, rs, i + 1); }
      if !RecordOk(names, policy, valid, commit, rs[i]) { return None; }
      TreeSizeGrows(rs, i + 1);
      TreeSizeOfPrefix(rs, i);
      total := total + rs[i].size.value;
      if total > policy.maxTotal { return None; }
      if rs[i].path in seen || names.portable(rs[i].path) in seenPortable { return None; }
      seen, seenPortable := seen + {rs[i].path}, seenPortable + {names.portable(rs[i].path)};
      SizeOfPrefix(entries + [EntryOf(rs[i])], i);
      assert (entries + [EntryOf(rs[i])])[..i] == entries
          && (entries + [EntryOf(rs[i])])[..i + 1] == entries + [EntryOf(rs[i])];
      entries := entries + [EntryOf(rs[i])];
    }
    assert rs[..|rs|] == rs;
    if entries == [] { return None; }
    GoodArePathwiseDistinct(names, policy, valid, commit, rs);
    var sorted := SortByPath(entries);
    SortedLists(entries, sorted, rs);
    listed := Some(sorted);
  }

  lemma NothingListed(names: Names, policy: Policy, valid: string -> bool, commit: string, rs: seq<Record>)
    ensures GoodUpTo(names, policy, valid, commit, rs, 0) && TreeSize(rs[..0]) == 0 && EntriesSize([]) == 0
  {}

  lemma GoodArePathwiseDistinct(names: Names, policy: Policy, valid: string -> bool, commit: string, rs: seq<Record>)
    requires GoodUpTo(names, policy, valid, commit, rs, |rs|)
    ensures forall i, j :: 0 <= i < j < |rs| && rs[i].Record? && rs[j].Record? ==> rs[i].path != rs[j].path
  {}

  lemma SortedLists(entries: seq<TreeEntry>, sorted: seq<TreeEntry>, rs: seq<Record>)
    requires |entries| == |rs| && SortedByPath(sorted) && multiset(sorted) == multiset(entries)
    requires forall k :: 0 <= k < |rs| ==> rs[k].Record? && rs[k].size.Some? && entries[k] == EntryOf(rs[k])
    ensures Lists(sorted, rs)
  {
    hide SortedByPath, EntryOf;
    assert |multiset(sorted)| == |sorted| && |multiset(entries)| == |entries|;
    forall i | 0 <= i < |rs| ensures EntryOf(rs[i]) in sorted {
      assert entries[i] in multiset(sorted);
    }
    forall e | e in sorted ensures exists i :: 0 <= i < |rs| && EntryOf(rs[i]) == e {
      assert e in multiset(entries);
      var i :| 0 <= i < |entries| && entries[i] == e;
      assert EntryOf(rs[i]) == e;
    }
  }

  predicate ReadFrom(names: Names, sources: seq<SourceEntry>, entries: seq<TreeEntry>) {
    && |sources| == |entries|
    && forall i :: 0 <= i < |sources| ==>
         && sources[i].path == entries[i].path && sources[i].mode == entries[i].mode
         && sources[i].size == entries[i].size == |sources[i].data|
         && sources[i].sha256 == names.digest(sources[i].data)
  }

  /** `_read_sources`; `blobs` is the object store and `readable` the policy on contents. */
  method ReadSources(names: Names, entries: seq<TreeEntry>, blobs: string -> Bytes, readable: (TreeEntry,
      Bytes) -> bool)
    returns (read: Option<seq<SourceEntry>>)
    ensures read.Some? <==> forall e :: e in entries ==> |blobs(e.objectId)| == e.size && readable(e, blobs(e.objectId))
    ensures read.Some? ==> ReadFrom(names, read.value, entries)
    ensures read.Some? ==> forall i :: 0 <= i < |entries| ==> read.value[i].data == blobs(entries[i].objectId)
  {
    var sources := [];
    for i := 0 to |entries|
      invariant ReadFrom(names, sources, entries[..i])
      invariant forall k :: 0 <= k < i ==>
                  sources[k].data == blobs(entries[k].objectId) && readable(entries[k], blobs(entries[k].objectId))
    {
      var e := entries[i];
      var data := blobs(e.objectId);
      assert e in entries;
      if |data| != e.size || !readable(e, data) { return None; }
      sources := sources + [SourceEntry(e.path, e.mode, e.size, names.digest(data), data)];
    }
    assert entries[..|entries|] == entries;
    read := Some(sources);
  }

  lemma {:induction false} SizesAgree(names: Names, sources: seq<SourceEntry>, entries: seq<TreeEntry>)
    requires ReadFrom(names, sources, entries)
    ensures SizeOf(sources) == EntriesSize(entries)
  {
    if sources != [] { SizesAgree(names, sources[..|sources| - 1], entries[..|entries| - 1]); }
  }

  /** The commit's directory in front of two paths does not make them fold to one. */
  ghost predicate FoldsUnder(names: Names, commit: string) {
    forall p, q :: names.portable(MemberPath(commit, p)) == names.portable(MemberPath(commit, q)) ==>
      names.portable(p) == names.portable(q)
  }

  /** No listed path looks like a directory; `git ls-tree -r` lists none that does. */
  predicate FilesOnly(rs: seq<Record>) {
    forall i :: 0 <= i < |rs| && rs[i].Record? ==> !LikeDirectory(rs[i].path)
  }

  /**
   * An archive written from what was listed and read is accepted by the verification of the completed file exactly
   * when no listed path looks like a directory. Listing itself does not check that.
   */
  lemma ListedArchiveIsAccepted(names: Names, policy: Policy, valid: string -> bool, commit: string, rs: seq<Record>,
                                entries: seq<TreeEntry>, sources: seq<SourceEntry>, archive: Archive)
    requires FoldsUnder(names, commit) && Listable(names, policy, valid, commit, rs)
    requires Lists(entries, rs) && EntriesSize(entries) == TreeSize(rs) && ReadFrom(names, sources, entries)
    requires WrittenFrom(commit, sources, archive.members)
    requires archive.comment == "" && archive.compressedSize <= policy.maxCompressed
    ensures Accepted(names, policy, commit, sources, archive) <==> FilesOnly(rs)
  {
    hide MemberPath, Accepted, WrittenFrom, HexId, TreeSize, EntriesSize, SizeOf, Less, LikeDirectory;
    SizesAgree(names, sources, entries);
    forall i | 0 <= i < |sources| ensures Exportable(names, policy, commit, sources[i]) {
      ListedIsExportable(names, policy, valid, commit, rs, entries, sources, i);
    }
    ListedAreApart(names, policy, valid, commit, rs, entries, sources);
    SameFiles(names, rs, entries, sources);
    hide Exportable, Lists, Listable, ReadFrom, FoldsUnder, FilesOnly;
    WrittenIsAccepted(names, policy, commit, sources, archive);
  }

  lemma SameFiles(names: Names, rs: seq<Record>, entries: seq<TreeEntry>, sources: seq<SourceEntry>)
    requires Lists(entries, rs) && ReadFrom(names, sources, entries)
    ensures FilesOnly(rs) <==> forall i :: 0 <= i < |sources| ==> !LikeDirectory(sources[i].path)
  {
    hide LikeDirectory, SortedByPath;
    forall i | 0 <= i < |sources|
      ensures exists k :: 0 <= k < |rs| && rs[k].Record? && rs[k].path == sources[i].path
    {
      assert entries[i] in entries;
      var k :| 0 <= k < |rs| && EntryOf(rs[k]) == entries[i];
    }
    forall k | 0 <= k < |rs| ensures exists i :: 0 <= i < |sources| && rs[k].path == sources[i].path {
      var i :| 0 <= i < |entries| && entries[i] == EntryOf(rs[k]);
      assert sources[i].path == rs[k].path;
    }
  }

  lemma ListedIsExportable(names: Names, policy: Policy, valid: string -> bool, commit: string, rs: seq<Record>,
                           entries: seq<TreeEntry>, sources: seq<SourceEntry>, i: nat)
    requires Listable(names, policy, valid, commit, rs)
    requires Lists(entries, rs) && ReadFrom(names, sources, entries) && i < |sources|
    ensures Exportable(names, policy, commit, sources[i])
  {
    hide MemberPath, SortedByPath, HexId, TreeSize;
    assert entries[i] in entries;
    var k :| 0 <= k < |rs| && EntryOf(rs[k]) == entries[i];
    assert RecordOk(names, policy, valid, commit, rs[k]);
  }

  lemma ListedAreApart(names: Names, policy: Policy, valid: string -> bool, commit: string, rs: seq<Record>,
                       entries: seq<TreeEntry>, sources: seq<SourceEntry>)
    requires FoldsUnder(names, commit) && Listable(names, policy, valid, commit, rs)
    requires Lists(entries, rs) && ReadFrom(names, sources, entries)
    ensures Apart(names, commit, sources)
  {
    hide MemberPath, HexId, TreeSize, RecordOk, Less, FoldsUnder;
    forall i, j | 0 <= i < j < |sources|
      ensures names.portable(MemberPath(commit, sources[i].path)) != names.portable(MemberPath(commit, sources[j].path))
    {
      assert entries[i] in entries && entries[j] in entries;
      var k :| 0 <= k < |rs| && EntryOf(rs[k]) == entries[i];
      var l :| 0 <= l < |rs| && EntryOf(rs[l]) == entries[j];
      SortedAreDistinct(entries, i, j);
      assert k != l;
      FoldsApart(names, commit, rs[k].path, rs[l].path);
    }
  }

  lemma FoldsApart(names: Names, commit: string, p: string, q: string)
    requires FoldsUnder(names, commit) && names.portable(p) != names.portable(q)
    ensures names.portable(MemberPath(commit, p)) != names.portable(MemberPath(commit, q))
  {
    hide MemberPath;
  }

  lemma SortedAreDistinct(entries: seq<TreeEntry>, i: nat, j: nat)
    requires SortedByPath(entries) && i < j < |entries|
    ensures entries[i].path != entries[j].path
  {
    LessIsIrreflexive(entries[i].path);
  }

  /** Every object has the listed size and contents that may be exported. */
  predicate AllReadable(entries: seq<TreeEntry>, blobs: string -> Bytes, readable: (TreeEntry, Bytes) -> bool) {
    forall e :: e in entries ==> |blobs(e.objectId)| == e.size && readable(e, blobs(e.objectId))
  }

  /** The sources of the listed entries, each with the data of its object. */
  predicate SourcesOf(names: Names, sources: seq<SourceEntry>, entries: seq<TreeEntry>, blobs: string -> Bytes) {
    ReadFrom(names, sources, entries) && forall i :: 0 <= i < |entries| ==>
        sources[i].data == blobs(entries[i].objectId)
  }

  /** Everything listed is there, once and in order, with the data of its object. */
  ghost predicate Packages(names: Names, sources: seq<SourceEntry>, rs: seq<Record>, blobs: string -> Bytes) {
    exists entries :: Lists(entries, rs) && SourcesOf(names, sources, entries, blobs)
  }

  /**
   * `package_source` from the listing to the verification. It returns the sources of everything listed, and fails
   * only when something may not be listed or read, when the archive of these sources is too large, or when a listed
   * path looks like a directory.
   */
  method PackageSource(names: Names, policy: Policy, valid: string -> bool, commit: string, rs: seq<Record>,
                       blobs: string -> Bytes, readable: (TreeEntry, Bytes) -> bool, compressed: seq<Member> -> nat)
    returns (packaged: Option<seq<SourceEntry>>, ghost entries: seq<TreeEntry>, ghost sources: seq<SourceEntry>,
             ghost members: seq<Member>)
    requires FoldsUnder(names, commit)
    ensures Listable(names, policy, valid, commit, rs) ==> Lists(entries, rs)
    ensures Listable(names, policy, valid, commit, rs) && AllReadable(entries, blobs, readable) ==>
              SourcesOf(names, sources, entries, blobs) && WrittenFrom(commit, sources, members)
    ensures packaged.Some? <==>
              && Listable(names, policy, valid, commit, rs) && AllReadable(entries, blobs, readable)
              && compressed(members) <= policy.maxCompressed && FilesOnly(rs)
    ensures packaged.Some? ==> packaged.value == sources && Packages(names, packaged.value, rs, blobs)
  {
    hide Listable, Lists, ByMember, EntriesSize, TreeSize, Accepted, WrittenFrom, FoldsUnder, ReadFrom, FilesOnly;
    entries, sources, members := [], [], [];
    var listed := ListTree(names, policy, valid, commit, rs);
    if listed.None? { return None, [], [], []; }
    entries := listed.value;
    var read := ReadSources(names, listed.value, blobs, readable);
    if read.None? { return None, entries, [], []; }
    sources := read.value;
    var written := WriteArchive(commit, read.value);
    members := written;
    var archive := Archive("", compressed(written), written);
    if archive.compressedSize <= policy.maxCompressed {
      ListedArchiveIsAccepted(names, policy, valid, commit, rs, entries, sources, archive);
    }
    var ok, verified := VerifyCompletedArchive(names, policy, commit, read.value, archive);
    AcceptedFits(names, policy, commit, sources, archive);
    if !ok { return None, entries, sources, members; }
    WrittenIsReadBack(names, policy, commit, sources, archive, verified);
    packaged := Some(verified);
  }

  lemma AcceptedFits(names: Names, policy: Policy, commit: string, sources: seq<SourceEntry>, archive: Archive)
    ensures Accepted(names, policy, commit, sources, archive) ==> archive.compressedSize <= policy.maxCompressed
  {}

  /** The sizes of all records add up, whatever their order of reading. */
  lemma TreeSizeMeans(rs: seq<Record>, r: Record)
    requires r.Record? && r.size.Some?
    ensures TreeSize([]) == 0 && TreeSize(rs + [r]) == TreeSize(rs) + r.size.value
  {
    assert (rs + [r])[..|rs|] == rs;
  }

  /** A tree may be listed when its records are in order, none two collide, and number and size are within limits. */
  lemma ListableMeans(names: Names, policy: Policy, valid: string -> bool, commit: string, rs: seq<Record>)
    ensures Listable(names, policy, valid, commit, rs) <==>
              && 1 <= |rs| <= policy.maxEntries && TreeSize(rs) <= policy.maxTotal
              && (forall i :: 0 <= i < |rs| ==> RecordOk(names, policy, valid, commit, rs[i]))
              && (forall i, j :: 0 <= i < j < |rs| && rs[i].Record? && rs[j].Record? ==>
                   names.portable(rs[i].path) != names.portable(rs[j].path))
  {
    hide TreeSize, RecordOk;
  }

  /** A source of this record: its path, mode and size, with the data of its object and their digest. */
  predicate IsSource(names: Names, s: SourceEntry, r: Record, blobs: string -> Bytes) {
    && r.Record? && r.size == Some(s.size) && s.path == r.path && s.size == |s.data|
    && s.mode == (if r.mode == "100755" then 0x81ED else 0x81A4)
    && s.data == blobs(r.objectId) && s.sha256 == names.digest(s.data)
  }

  predicate IsPackaged(names: Names, sources: seq<SourceEntry>, r: Record, blobs: string -> Bytes) {
    exists k :: 0 <= k < |sources| && IsSource(names, sources[k], r, blobs)
  }

  predicate IsRecorded(names: Names, s: SourceEntry, rs: seq<Record>, blobs: string -> Bytes) {
    exists i :: 0 <= i < |rs| && IsSource(names, s, rs[i], blobs)
  }

  predicate IsListed(e: TreeEntry, rs: seq<Record>) {
    exists i :: 0 <= i < |rs| && rs[i].Record? && rs[i].size.Some? && EntryOf(rs[i]) == e
  }

  /** What is packaged: as many sources as records, sorted by path, one for each record and none besides. */
  lemma PackagedColumns(names: Names, sources: seq<SourceEntry>, rs: seq<Record>, blobs: string -> Bytes)
    requires Packages(names, sources, rs, blobs)
    ensures |sources| == |rs|
    ensures forall i, j :: 0 <= i < j < |sources| ==> Less(sources[i].path, sources[j].path)
    ensures forall i :: 0 <= i < |rs| ==> IsPackaged(names, sources, rs[i], blobs)
    ensures forall k :: 0 <= k < |sources| ==> IsRecorded(names, sources[k], rs, blobs)
  {
    hide Less, IsSource, Lists, SourcesOf, IsPackaged, IsRecorded;
    var entries :| Lists(entries, rs) && SourcesOf(names, sources, entries, blobs);
    ListsMeans(entries, rs);
    SourcesAreInOrder(names, sources, entries, blobs);
    forall i | 0 <= i < |rs| ensures IsPackaged(names, sources, rs[i], blobs) {
      RecordIsPackaged(names, sources, entries, rs, blobs, i);
    }
    forall k | 0 <= k < |sources| ensures IsRecorded(names, sources[k], rs, blobs) {
      SourceIsRecorded(names, sources, entries, rs, blobs, k);
    }
  }

  lemma RecordIsPackaged(names: Names, sources: seq<SourceEntry>, entries: seq<TreeEntry>, rs: seq<Record>,
                         blobs: string -> Bytes, i: nat)
    requires Lists(entries, rs) && SourcesOf(names, sources, entries, blobs) && i < |rs|
    ensures IsPackaged(names, sources, rs[i], blobs)
  {
    hide Less, IsSource, Lists, SourcesOf;
    ListsMeans(entries, rs);
    var k :| 0 <= k < |entries| && entries[k] == EntryOf(rs[i]);
    EntryIsSource(names, sources, entries, blobs, rs[i], k);
  }

  lemma SourceIsRecorded(names: Names, sources: seq<SourceEntry>, entries: seq<TreeEntry>, rs: seq<Record>,
                         blobs: string -> Bytes, k: nat)
    requires Lists(entries, rs) && SourcesOf(names, sources, entries, blobs) && k < |sources|
    ensures IsRecorded(names, sources[k], rs, blobs)
  {
    hide Less, IsSource, Lists, SourcesOf, EntryOf;
    ListsMeans(entries, rs);
    SourcesAreInOrder(names, sources, entries, blobs);
    assert IsListed(entries[k], rs);
    var i :| 0 <= i < |rs| && rs[i].Record? && rs[i].size.Some? && EntryOf(rs[i]) == entries[k];
    EntryIsSource(names, sources, entries, blobs, rs[i], k);
  }

  lemma ListsMeans(entries: seq<TreeEntry>, rs: seq<Record>)
    requires Lists(entries, rs)
    ensures |entries| == |rs| && SortedByPath(entries)
    ensures forall i :: 0 <= i < |rs| ==> rs[i].Record? && rs[i].size.Some? && EntryOf(rs[i]) in entries
    ensures forall k :: 0 <= k < |entries| ==> IsListed(entries[k], rs)
  {
    hide Less, SortedByPath, EntryOf;
    forall k | 0 <= k < |entries| ensures entries[k] in entries {}
  }

  lemma SourcesAreInOrder(names: Names, sources: seq<SourceEntry>, entries: seq<TreeEntry>, blobs: string -> Bytes)
    requires SourcesOf(names, sources, entries, blobs)
    ensures |sources| == |entries|
    ensures SortedByPath(entries) ==>
              forall i, j :: 0 <= i < j < |sources| ==> Less(sources[i].path, sources[j].path)
  {
    hide Less;
  }

  lemma EntryIsSource(names: Names, sources: seq<SourceEntry>, entries: seq<TreeEntry>, blobs: string -> Bytes,
                      r: Record, k: nat)
    requires SourcesOf(names, sources, entries, blobs) && k < |entries|
    requires r.Record? && r.size.Some? && EntryOf(r) == entries[k]
    ensures |sources| == |entries| && IsSource(names, sources[k], r, blobs)
  {}

  /** The mode of an entry is the number its octal text says. */
  lemma ListedModes(r: Record)
    requires r.Record? && r.size.Some?
    ensures r.mode == "100644" ==> EntryOf(r).mode == ((((1 * 8 + 0) * 8 + 0) * 8 + 6) * 8 + 4) * 8 + 4
    ensures r.mode == "100755" ==> EntryOf(r).mode == ((((1 * 8 + 0) * 8 + 0) * 8 + 7) * 8 + 5) * 8 + 5
    ensures EntryOf(r).path == r.path && EntryOf(r).objectId == r.objectId && EntryOf(r).size == r.size.value
  {
    assert "100644"[3] == '6' && "100755"[3] == '7';
  }

  /** What a record must be to be listed, column by column. */
  lemma RecordColumns(names: Names, policy: Policy, valid: string -> bool, commit: string, r: Record)
    ensures RecordOk(names, policy, valid, commit, r) <==>
              && r.Record? && valid(r.path) && names.encodedLength(MemberPath(commit, r.path)) <= policy.maxPath
              && (r.mode == "100644" || r.mode == "100755") && r.objectType == "blob"
              && 40 <= |r.objectId| <= 64
              && (forall i :: 0 <= i < |r.objectId| ==>
                   '0' <= r.objectId[i] <= '9' || 'a' <= r.objectId[i] <= 'f')
              && r.size.Some? && r.size.value <= policy.maxFile
  {
    hide MemberPath;
  }
}
