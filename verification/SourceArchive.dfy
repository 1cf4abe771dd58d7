/** The source archive: its entries, its members, and the check of the completed file (scripts/package_source.py). */
module SourceArchive {
  import opened Outcomes

  type Bytes = seq<nat>

  /** Unicode and hashing as the archive uses them: encoded length, normalised and folded path, digest. */
  datatype Names = Names(encodedLength: string -> nat, portable: string -> string, digest: Bytes -> string)

  datatype Policy = Policy(maxEntries: nat, maxPath: nat, maxFile: nat, maxTotal: nat, maxCompressed: nat)

  datatype SourceEntry = SourceEntry(path: string, mode: nat, size: nat, sha256: string, data: Bytes)

  /** A member as the central directory lists it; `data` is missing when it cannot be read back. */
  datatype Member = Member(
    filename: string,
    encrypted: bool,
    deterministic: bool,
    attributes: nat,
    fileSize: nat,
    data: Option<Bytes>)

  datatype Archive = Archive(comment: string, compressedSize: nat, members: seq<Member>)

  /** `_archive_member_path`. */
  function MemberPath(commit: string, path: string): string {
    "recipe-lab-" + (if |commit| > 12 then commit[..12] else commit) + "/" + path
  }

  lemma MemberPathIsInjective(commit: string, p: string, q: string)
    requires MemberPath(commit, p) == MemberPath(commit, q)
    ensures p == q
  {
    var prefix := "recipe-lab-" + (if |commit| > 12 then commit[..12] else commit) + "/";
    assert MemberPath(commit, p)[|prefix|..] == p && MemberPath(commit, q)[|prefix|..] == q;
  }

  /** A dictionary from member path to entry; of two entries with one path the later stays. */
  function ByMember(commit: string, entries: seq<SourceEntry>): map<string, SourceEntry> {
    if entries == [] then map[]
    else
      var last := entries[|entries| - 1];
      ByMember(commit, entries[..|entries| - 1])[MemberPath(commit, last.path) := last]
  }

  lemma {:induction false} ByMemberHolds(commit: string, entries: seq<SourceEntry>)
    ensures forall f :: f in ByMember(commit, entries) ==>
              ByMember(commit, entries)[f] in entries && f == MemberPath(commit, ByMember(commit, entries)[f].path)
    ensures forall e :: e in entries ==> MemberPath(commit, e.path) in ByMember(commit, entries)
    ensures |ByMember(commit, entries)| <= |entries|
  {
    if entries != [] {
      var before, last := entries[..|entries| - 1], entries[|entries| - 1];
      ByMemberHolds(commit, before);
      assert entries == before + [last];
    }
  }

  /** The mode a member carries in the upper half of its attributes. */
  function ModeOf(attributes: nat): nat {
    attributes / 0x10000 % 0x10000
  }

  /** A regular file that everyone may read and its owner may write, executable or not. */
  predicate RegularMode(mode: nat) {
    mode / 0x1000 % 16 == 8 && (mode % 512 == 0x1A4 || mode % 512 == 0x1ED)
  }

  /** What the check asks of one member, given the entry it must be. */
  predicate MemberOk(names: Names, policy: Policy, m: Member, expected: SourceEntry) {
    && !m.encrypted && (m.filename == [] || m.filename[|m.filename| - 1] != '/') && m.deterministic
    && names.encodedLength(m.filename) <= policy.maxPath && RegularMode(ModeOf(m.attributes))
    && m.fileSize == expected.size && m.fileSize <= policy.maxFile
    && m.data.Some? && names.digest(m.data.value) == expected.sha256
  }

  function TotalSize(members: seq<Member>): nat {
    if members == [] then 0 else TotalSize(members[..|members| - 1]) + members[|members| - 1].fileSize
  }

  lemma {:induction false} TotalGrows(members: seq<Member>, n: nat)
    requires n <= |members|
    ensures TotalSize(members[..n]) <= TotalSize(members)
  {
    if n < |members| {
      assert members[..|members| - 1][..n] == members[..n];
      TotalGrows(members[..|members| - 1], n);
    } else {
      assert members[..n] == members;
    }
  }

  /** The members up to `n` pass one by one, and no two of their paths are the same or fold to the same. */
  predicate PassUpTo(names: Names, policy: Policy, byMember: map<string, SourceEntry>, ms: seq<Member>, n: nat)
    requires n <= |ms|
  {
    && (forall i, j :: 0 <= i < j < n ==> names.portable(ms[i].filename) != names.portable(ms[j].filename))
    && (forall i :: 0 <= i < n ==>
         ms[i].filename in byMember && MemberOk(names, policy, ms[i], byMember[ms[i].filename]))
  }

  function Filenames(ms: seq<Member>, n: nat): set<string>
    requires n <= |ms|
  {
    set i | 0 <= i < n :: ms[i].filename
  }

  function PortableNames(names: Names, ms: seq<Member>, n: nat): set<string>
    requires n <= |ms|
  {
    set i | 0 <= i < n :: names.portable(ms[i].filename)
  }

  /** What verification asks of an archive, all at once. */
  predicate Accepted(names: Names, policy: Policy, commit: string, expected: seq<SourceEntry>, archive: Archive) {
    var ms := archive.members;
    && archive.compressedSize <= policy.maxCompressed && archive.comment == ""
    && |ms| == |expected| && |ms| <= policy.maxEntries && TotalSize(ms) <= policy.maxTotal
    && PassUpTo(names, policy, ByMember(commit, expected), ms, |ms|)
    && ByMember(commit, expected).Keys == Filenames(ms, |ms|)
  }

  lemma PassSteps(names: Names, policy: Policy, byMember: map<string, SourceEntry>, ms: seq<Member>, i: nat)
    requires i < |ms|
    requires PassUpTo(names, policy, byMember, ms, i)
    ensures PassUpTo(names, policy, byMember, ms, i + 1) <==>
              && names.portable(ms[i].filename) !in PortableNames(names, ms, i)
              && ms[i].filename in byMember && MemberOk(names, policy, ms[i], byMember[ms[i].filename])
    ensures Filenames(ms, i + 1) == Filenames(ms, i) + {ms[i].filename}
    ensures PortableNames(names, ms, i + 1) == PortableNames(names, ms, i) + {names.portable(ms[i].filename)}
    ensures ms[i].filename in Filenames(ms, i) ==> names.portable(ms[i].filename) in PortableNames(names, ms, i)
  {
    hide MemberOk;
    if PassUpTo(names, policy, byMember, ms, i + 1) {
      forall k | 0 <= k < i ensures names.portable(ms[k].filename) != names.portable(ms[i].filename) {}
    }
  }

  lemma PassStops(names: Names, policy: Policy, byMember: map<string, SourceEntry>, ms: seq<Member>, n: nat)
    requires n <= |ms| && !PassUpTo(names, policy, byMember, ms, n)
    ensures !PassUpTo(names, policy, byMember, ms, |ms|)
  {
    hide MemberOk;
  }

  /** The checks of one member beside those of its path; the entry is the one it must be. */
  method CheckMember(names: Names, policy: Policy, m: Member, expected: SourceEntry) returns (ok: bool)
    ensures ok <==> MemberOk(names, policy, m, expected)
  {
    if m.encrypted { return false; }
    if m.filename != [] && m.filename[|m.filename| - 1] == '/' { return false; }
    if !m.deterministic { return false; }
    if names.encodedLength(m.filename) > policy.maxPath { return false; }
    var mode := m.attributes / 0x10000 % 0x10000;
    if mode / 0x1000 % 16 != 8 || mode % 512 !in {0x1A4, 0x1ED} { return false; }
    if m.fileSize != expected.size || m.fileSize > policy.maxFile { return false; }
    if m.data.None? || names.digest(m.data.value) != expected.sha256 { return false; }
    ok := true;
  }

  /** `_verify_completed_archive`: member by member, and at the end whether anything expected is missing. */
  method VerifyCompletedArchive(names: Names, policy: Policy, commit: string, expected: seq<SourceEntry>,
      archive: Archive)
    returns (ok: bool, verified: seq<SourceEntry>)
    ensures ok <==> Accepted(names, policy, commit, expected, archive)
    ensures ok ==> |verified| == |archive.members|
    ensures ok ==> forall i :: 0 <= i < |verified| ==>
              var m := archive.members[i];
              m.filename in ByMember(commit, expected) && m.data.Some?
              && verified[i] == ByMember(commit, expected)[m.filename].(data := m.data.value)
  {
    hide MemberOk, ByMember, PassUpTo, Filenames, PortableNames;
    verified := [];
    if archive.compressedSize > policy.maxCompressed || archive.comment != "" { return false, []; }
    var byMember, ms := ByMember(commit, expected), archive.members;
    if |ms| != |expected| || |ms| > policy.maxEntries { return false, []; }
    var seen, seenPortable, total := Filenames(ms, 0), PortableNames(names, ms, 0), 0;
    NothingPassed(names, policy, byMember, ms);
    for i := 0 to |ms|
      invariant PassUpTo(names, policy, byMember, ms, i)
      invariant seen == Filenames(ms, i) && seenPortable == PortableNames(names, ms, i)
      invariant total == TotalSize(ms[..i]) <= policy.maxTotal
      invariant |verified| == i
      invariant forall k :: 0 <= k < i ==>
                  ms[k].filename in byMember && ms[k].data.Some?
                  && verified[k] == byMember[ms[k].filename].(data := ms[k].data.value)
    {
      PassSteps(names, policy, byMember, ms, i);
      if !PassUpTo(names, policy, byMember, ms, i + 1) { PassStops(names, policy, byMember, ms, i + 1); }
      if ms[i].filename in seen || names.portable(ms[i].filename) in seenPortable { return false, []; }
      seen, seenPortable := seen + {ms[i].filename}, seenPortable + {names.portable(ms[i].filename)};
      if ms[i].filename !in byMember { return false, []; }
      var passed := CheckMember(names, policy, ms[i], byMember[ms[i].filename]);
      if !passed { return false, []; }
      DataIsThere(names, policy, ms[i], byMember[ms[i].filename]);
      TotalGrows(ms, i + 1);
      assert ms[..i + 1][..i] == ms[..i];
      total := total + ms[i].fileSize;
      if total > policy.maxTotal { return false, []; }
      verified := verified + [byMember[ms[i].filename].(data := ms[i].data.value)];
    }
    assert ms[..|ms|] == ms;
    ok := byMember.Keys == seen;
  }

  lemma NothingPassed(names: Names, policy: Policy, byMember: map<string, SourceEntry>, ms: seq<Member>)
    ensures PassUpTo(names, policy, byMember, ms, 0)
  {}

  lemma DataIsThere(names: Names, policy: Policy, m: Member, expected: SourceEntry)
    requires MemberOk(names, policy, m, expected)
    ensures m.data.Some?
  {}

  lemma {:induction false} FilenamesCount(names: Names, ms: seq<Member>, n: nat)
    requires n <= |ms|
    requires forall i, j :: 0 <= i < j < n ==> names.portable(ms[i].filename) != names.portable(ms[j].filename)
    ensures |Filenames(ms, n)| == n
  {
    if n > 0 {
      FilenamesCount(names, ms, n - 1);
      var before, last := Filenames(ms, n - 1), ms[n - 1].filename;
      forall i | 0 <= i < n - 1 ensures ms[i].filename != last {
        assert names.portable(ms[i].filename) != names.portable(ms[n - 1].filename);
      }
      assert last !in before;
      assert Filenames(ms, n) == before + {last};
    }
  }

  predicate DistinctPaths(entries: seq<SourceEntry>) {
    forall i, j :: 0 <= i < j < |entries| ==> entries[i].path != entries[j].path
  }

  /** Every entry of the list is found under its member path. */
  predicate Faithful(commit: string, entries: seq<SourceEntry>) {
    forall i :: 0 <= i < |entries| ==>
      MemberPath(commit, entries[i].path) in ByMember(commit, entries)
      && ByMember(commit, entries)[MemberPath(commit, entries[i].path)] == entries[i]
  }

  lemma FaithfulStep(commit: string, entries: seq<SourceEntry>)
    requires entries != []
    requires Faithful(commit, entries[..|entries| - 1]) && DistinctPaths(entries[..|entries| - 1])
    requires MemberPath(commit, entries[|entries| - 1].path) !in ByMember(commit, entries[..|entries| - 1])
    ensures Faithful(commit, entries) && DistinctPaths(entries)
  {
    hide MemberPath;
    var before, last := entries[..|entries| - 1], entries[|entries| - 1];
    forall i | 0 <= i < |before|
      ensures MemberPath(commit, entries[i].path) in ByMember(commit, before) && entries[i].path != last.path
              && ByMember(commit, before)[MemberPath(commit, entries[i].path)] == entries[i]
    {
      assert before[i] == entries[i];
    }
  }

  /** A dictionary as large as its list has lost nothing: the list has no path twice. */
  lemma {:induction false} FullDictionary(commit: string, entries: seq<SourceEntry>)
    requires |ByMember(commit, entries)| == |entries|
    ensures DistinctPaths(entries) && Faithful(commit, entries)
  {
    hide MemberPath, Faithful, DistinctPaths;
    if entries == [] {
      NothingLost(commit);
    } else {
      var before, last := entries[..|entries| - 1], entries[|entries| - 1];
      var small := ByMember(commit, before);
      ByMemberHolds(commit, before);
      assert ByMember(commit, entries).Keys == small.Keys + {MemberPath(commit, last.path)};
      assert |small.Keys| == |small| && |ByMember(commit, entries).Keys| == |entries|;
      FullDictionary(commit, before);
      FaithfulStep(commit, entries);
    }
  }

  lemma NothingLost(commit: string)
    ensures DistinctPaths([]) && Faithful(commit, [])
  {}

  predicate IsEntry(names: Names, commit: string, m: Member, e: SourceEntry) {
    && m.filename == MemberPath(commit, e.path) && m.fileSize == e.size
    && m.data.Some? && names.digest(m.data.value) == e.sha256
  }

  /**
   * Acceptance means a bijection: no path is expected twice, every expected entry is there once with its size and
   * digest, and nothing else is.
   */
  lemma AcceptedIsABijection(names: Names, policy: Policy, commit: string, expected: seq<SourceEntry>, archive: Archive)
    requires Accepted(names, policy, commit, expected, archive)
    ensures |archive.members| == |expected| <= policy.maxEntries && TotalSize(archive.members) <= policy.maxTotal
    ensures DistinctPaths(expected)
    ensures forall i, j :: 0 <= i < j < |archive.members| ==> archive.members[i].filename != archive.members[j].filename
    ensures forall e :: e in expected ==> exists m :: m in archive.members && IsEntry(names, commit, m, e)
    ensures forall m :: m in archive.members ==> exists e :: e in expected && IsEntry(names, commit, m, e)
  {
    hide MemberPath, ByMember, TotalSize;
    var ms, byMember := archive.members, ByMember(commit, expected);
    FilenamesCount(names, ms, |ms|);
    assert |byMember| == |byMember.Keys|;
    FullDictionary(commit, expected);
    ByMemberHolds(commit, expected);
    forall m | m in ms ensures exists e :: e in expected && IsEntry(names, commit, m, e) {
      assert MemberOk(names, policy, m, byMember[m.filename]);
      assert IsEntry(names, commit, m, byMember[m.filename]);
    }
    forall e | e in expected ensures exists m :: m in ms && IsEntry(names, commit, m, e) {
      assert MemberPath(commit, e.path) in Filenames(ms, |ms|);
      var i :| 0 <= i < |ms| && ms[i].filename == MemberPath(commit, e.path);
      assert IsEntry(names, commit, ms[i], e);
    }
  }

  /** The member `_write_archive` writes for an entry. */
  function WrittenMember(commit: string, e: SourceEntry): Member {
    Member(MemberPath(commit, e.path), false, true, e.mode % 0x10000 * 0x10000, |e.data|, Some(e.data))
  }

  /** `_write_archive`: one member for each entry, in their order. */
  method WriteArchive(commit: string, entries: seq<SourceEntry>) returns (members: seq<Member>)
    ensures WrittenFrom(commit, entries, members)
  {
    members := [];
    for i := 0 to |entries|
      invariant |members| == i && forall k :: 0 <= k < i ==> members[k] == WrittenMember(commit, entries[k])
    {
      var e := entries[i];
      var attributes := e.mode % 0x10000 * 0x10000;
      members := members + [Member(MemberPath(commit, e.path), false, true, attributes, |e.data|, Some(e.data))];
    }
  }

  /** What listing and reading guarantee of an entry: its limits, its mode, and that size and digest are its data's. */
  predicate Exportable(names: Names, policy: Policy, commit: string, e: SourceEntry) {
    && names.encodedLength(MemberPath(commit, e.path)) <= policy.maxPath
    && e.mode in {0x81A4, 0x81ED} && e.size == |e.data| <= policy.maxFile && e.sha256 == names.digest(e.data)
  }

  /** The member of this path would be taken for a directory. */
  predicate LikeDirectory(path: string) {
    path == "" || path[|path| - 1] == '/'
  }

  lemma WrittenMemberIsOk(names: Names, policy: Policy, commit: string, e: SourceEntry)
    requires Exportable(names, policy, commit, e)
    ensures MemberOk(names, policy, WrittenMember(commit, e), e) <==> !LikeDirectory(e.path)
  {
    var path := MemberPath(commit, e.path);
    assert path[|path| - 1] == if e.path == "" then '/' else e.path[|e.path| - 1];
  }

  function SizeOf(entries: seq<SourceEntry>): nat {
    if entries == [] then 0 else SizeOf(entries[..|entries| - 1]) + entries[|entries| - 1].size
  }

  lemma {:induction false} WrittenSize(commit: string, entries: seq<SourceEntry>, members: seq<Member>)
    requires WrittenFrom(commit, entries, members)
    requires forall i :: 0 <= i < |entries| ==> entries[i].size == |entries[i].data|
    ensures TotalSize(members) == SizeOf(entries)
  {
    if entries != [] {
      WrittenSize(commit, entries[..|entries| - 1], members[..|members| - 1]);
    }
  }

  lemma {:induction false} DistinctDictionary(commit: string, entries: seq<SourceEntry>)
    requires DistinctPaths(entries)
    ensures Faithful(commit, entries)
  {
    if entries == [] {
      NothingLost(commit);
    } else {
      var before, last := entries[..|entries| - 1], entries[|entries| - 1];
      DistinctDictionary(commit, before);
      ByMemberHolds(commit, before);
      if MemberPath(commit, last.path) in ByMember(commit, before) {
        MemberPathIsInjective(commit, ByMember(commit, before)[MemberPath(commit, last.path)].path, last.path);
      }
      FaithfulStep(commit, entries);
    }
  }

  /** No two member paths fold to one. */
  predicate Apart(names: Names, commit: string, entries: seq<SourceEntry>) {
    forall i, j :: 0 <= i < j < |entries| ==>
      names.portable(MemberPath(commit, entries[i].path)) != names.portable(MemberPath(commit, entries[j].path))
  }

  predicate AllExportable(names: Names, policy: Policy, commit: string, entries: seq<SourceEntry>) {
    forall i :: 0 <= i < |entries| ==> Exportable(names, policy, commit, entries[i])
  }

  predicate WrittenFrom(commit: string, entries: seq<SourceEntry>, ms: seq<Member>) {
    |ms| == |entries| && forall i :: 0 <= i < |ms| ==> ms[i] == WrittenMember(commit, entries[i])
  }

  /** An archive written from exportable entries is accepted for them exactly when none looks like a directory. */
  lemma WrittenIsAccepted(names: Names, policy: Policy, commit: string, entries: seq<SourceEntry>, archive: Archive)
    requires |entries| <= policy.maxEntries && SizeOf(entries) <= policy.maxTotal
    requires archive.comment == "" && archive.compressedSize <= policy.maxCompressed
    requires WrittenFrom(commit, entries, archive.members)
    requires AllExportable(names, policy, commit, entries) && Apart(names, commit, entries)
    ensures Accepted(names, policy, commit, entries, archive)
       <==> forall i :: 0 <= i < |entries| ==> !LikeDirectory(entries[i].path)
  {
    hide LikeDirectory, MemberOk, ByMember, TotalSize, SizeOf, Faithful, DistinctPaths, Apart, AllExportable,
         WrittenFrom, Filenames;
    var ms := archive.members;
    assert |ms| == |entries| by { WrittenLength(commit, entries, ms); }
    AllExportableSizes(names, policy, commit, entries);
    WrittenSize(commit, entries, ms);
    ApartAreDistinct(names, commit, entries);
    DistinctDictionary(commit, entries);
    WrittenMembersPass(names, policy, commit, entries, ms);
    WrittenMembersApart(names, commit, entries, ms);
    WrittenMembersAreAll(commit, entries, ms);
  }

  lemma WrittenLength(commit: string, entries: seq<SourceEntry>, ms: seq<Member>)
    requires WrittenFrom(commit, entries, ms)
    ensures |ms| == |entries|
  {}

  lemma AllExportableSizes(names: Names, policy: Policy, commit: string, entries: seq<SourceEntry>)
    requires AllExportable(names, policy, commit, entries)
    ensures forall i :: 0 <= i < |entries| ==> entries[i].size == |entries[i].data|
  {}

  lemma WrittenMembersPass(names: Names, policy: Policy, commit: string, entries: seq<SourceEntry>, ms: seq<Member>)
    requires WrittenFrom(commit, entries, ms) && AllExportable(names, policy, commit, entries)
    requires Faithful(commit, entries)
    ensures forall i :: 0 <= i < |ms| ==>
              ms[i].filename in ByMember(commit, entries)
              && (MemberOk(names, policy, ms[i], ByMember(commit, entries)[ms[i].filename])
                  <==> !LikeDirectory(entries[i].path))
  {
    hide MemberPath, MemberOk, ByMember, Exportable, LikeDirectory;
    forall i | 0 <= i < |ms|
      ensures ms[i].filename in ByMember(commit, entries)
              && (MemberOk(names, policy, ms[i], ByMember(commit, entries)[ms[i].filename])
                  <==> !LikeDirectory(entries[i].path))
    {
      WrittenMemberIsOk(names, policy, commit, entries[i]);
    }
  }

  lemma WrittenMembersApart(names: Names, commit: string, entries: seq<SourceEntry>, ms: seq<Member>)
    requires WrittenFrom(commit, entries, ms) && Apart(names, commit, entries)
    ensures forall i, j :: 0 <= i < j < |ms| ==> names.portable(ms[i].filename) != names.portable(ms[j].filename)
  {
    hide MemberPath;
  }

  lemma WrittenMembersAreAll(commit: string, entries: seq<SourceEntry>, ms: seq<Member>)
    requires WrittenFrom(commit, entries, ms) && Faithful(commit, entries)
    ensures ByMember(commit, entries).Keys == Filenames(ms, |ms|)
  {
    hide MemberPath, ByMember;
    ByMemberHolds(commit, entries);
    var byMember := ByMember(commit, entries);
    forall f | f in byMember ensures f in Filenames(ms, |ms|) {
      var i :| 0 <= i < |entries| && entries[i] == byMember[f];
      assert ms[i].filename == f;
    }
  }

  lemma ApartAreDistinct(names: Names, commit: string, entries: seq<SourceEntry>)
    requires Apart(names, commit, entries)
    ensures DistinctPaths(entries)
  {
    hide MemberPath;
  }

  /** What verification returns for an archive written from entries is those entries. */
  lemma WrittenIsReadBack(names: Names, policy: Policy, commit: string, entries: seq<SourceEntry>, archive: Archive,
                          verified: seq<SourceEntry>)
    requires WrittenFrom(commit, entries, archive.members) && Accepted(names, policy, commit, entries, archive)
    requires |verified| == |archive.members|
    requires forall i :: 0 <= i < |verified| ==>
               var m := archive.members[i];
               m.filename in ByMember(commit, entries) && m.data.Some?
               && verified[i] == ByMember(commit, entries)[m.filename].(data := m.data.value)
    ensures verified == entries
  {
    hide MemberPath, ByMember, Accepted;
    AcceptedIsABijection(names, policy, commit, entries, archive);
    DistinctDictionary(commit, entries);
    forall i | 0 <= i < |verified| ensures verified[i] == entries[i] {
      FaithfulAt(commit, entries, i);
    }
  }

  lemma FaithfulAt(commit: string, entries: seq<SourceEntry>, i: nat)
    requires Faithful(commit, entries) && i < |entries|
    ensures MemberPath(commit, entries[i].path) in ByMember(commit, entries)
    ensures ByMember(commit, entries)[MemberPath(commit, entries[i].path)] == entries[i]
  {}

  /** The directory of an archive is named after the first twelve characters of the commit. */
  lemma MemberPathMeans(commit: string, path: string)
    ensures |commit| >= 12 ==> MemberPath(commit, path) == "recipe-lab-" + commit[..12] + "/" + path
  {
    if |commit| == 12 { assert commit[..12] == commit; }
  }

  /** The modes that are let through are those of regular files that their owner may write and anyone read. */
  lemma RegularModes()
    ensures RegularMode(((((1 * 8 + 0) * 8 + 0) * 8 + 6) * 8 + 4) * 8 + 4)
    ensures RegularMode(((((1 * 8 + 0) * 8 + 0) * 8 + 7) * 8 + 5) * 8 + 5)
    ensures !RegularMode(((((1 * 8 + 2) * 8 + 0) * 8 + 7) * 8 + 7) * 8 + 7)
    ensures !RegularMode((((4 * 8 + 0) * 8 + 7) * 8 + 5) * 8 + 5)
    ensures forall mode: nat :: mode < 0x1_0000 && RegularMode(mode) ==>
              0x8000 <= mode < 0x9000
              && (mode % 512 == (6 * 8 + 4) * 8 + 4 || mode % 512 == (7 * 8 + 5) * 8 + 5)
  {}

  /** The member written for an entry: its name, mode bits, length and data, neither encrypted nor dated. */
  lemma WrittenColumns(commit: string, e: SourceEntry)
    ensures var m := WrittenMember(commit, e);
      && m.filename == MemberPath(commit, e.path) && !m.encrypted && m.deterministic
      && m.fileSize == |e.data| && m.data == Some(e.data)
      && (e.mode < 0x1_0000 ==> ModeOf(m.attributes) == e.mode)
  {
    hide MemberPath;
  }
}
