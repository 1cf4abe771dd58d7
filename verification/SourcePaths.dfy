/** The path policy of the source archive (`_validate_source_path` in scripts/package_source.py) and what passes it. */
module SourcePaths {
  import opened Outcomes
  import opened SourceArchive
  import opened SourceTree

  /** `str.split("/")`. */
  function Split(s: string): (parts: seq<string>)
    ensures parts != []
  {
    if s == [] then [[]]
    else
      var rest := Split(s[1..]);
      if s[0] == '/' then [[]] + rest else [[s[0]] + rest[0]] + rest[1..]
  }

  function Named(parts: seq<string>): seq<string> {
    if parts == [] then [] else (if parts[0] in ["", "."] then [] else [parts[0]]) + Named(parts[1..])
  }

  /** `PurePosixPath(s).parts` of a relative path: empty parts and single dots are dropped. */
  function Parts(s: string): seq<string> {
    Named(Split(s))
  }

  /**
   * The checks on the characters of a path, those on a file at the root, which look at the whole text, and those on
   * a file below it, which look at the parts only.
   */
  datatype PathPolicy = PathPolicy(clean: string -> bool, root: string -> bool, below: seq<string> -> bool)

  predicate ValidSourcePath(policy: PathPolicy, path: string) {
    && path != "" && policy.clean(path)
    && match |Parts(path)|
       case 0 => false
       case 1 => policy.root(path)
       case _ => policy.below(Parts(path))
  }

  // ---- what the parts of a path are ----

  /** A part that stands for a file or a directory. */
  predicate Name(part: string) {
    part != "" && part != "." && '/' !in part
  }

  function Glued(parts: seq<string>): string
    requires parts != []
  {
    if |parts| == 1 then parts[0] else parts[0] + "/" + Glued(parts[1..])
  }

  /** Splitting undoes gluing with slashes: it is the only list of texts without slashes that gives the path. */
  lemma {:induction false} SplitOfGlued(parts: seq<string>)
    requires parts != [] && forall i :: 0 <= i < |parts| ==> '/' !in parts[i]
    ensures Split(Glued(parts)) == parts
  {
    hide Split;
    if |parts| == 1 {
      SplitOfPlain(parts[0]);
    } else {
      SplitOfGlued(parts[1..]);
      SplitAtSlash(parts[0], Glued(parts[1..]));
      assert parts == [parts[0]] + parts[1..];
    }
  }

  /** Empty parts and single dots are left out, and nothing else is. */
  lemma NamedOfMore(parts: seq<string>, part: string)
    ensures Named(parts + [part]) == if part == "" || part == "." then Named(parts) else Named(parts) + [part]
  {
    NamedOfConcat(parts, [part]);
    assert [part][1..] == [];
  }

  /** A file name alone: the root's policy on the text decides. */
  lemma RootFiles(policy: PathPolicy, name: string)
    requires Name(name)
    ensures ValidSourcePath(policy, name) <==> policy.clean(name) && policy.root(name)
  {
    SplitOfPlain(name);
    NamedOfNames([name]);
    assert Glued([name]) == name;
  }

  /** A file below the root: the policy on its directories and name decides. */
  lemma {:induction false} FilesBelow(policy: PathPolicy, parts: seq<string>)
    requires |parts| >= 2 && forall i :: 0 <= i < |parts| ==> Name(parts[i])
    ensures ValidSourcePath(policy, Glued(parts)) <==> policy.clean(Glued(parts)) && policy.below(parts)
  {
    hide Split, Named;
    SplitOfGlued(parts);
    NamedOfNames(parts);
    assert Glued(parts) == parts[0] + "/" + Glued(parts[1..]);
  }

  /** A path that names nothing is refused. */
  lemma NamelessPaths(policy: PathPolicy)
    ensures !ValidSourcePath(policy, "") && !ValidSourcePath(policy, ".") && !ValidSourcePath(policy, "/")
  {
    SplitOfPlain(".");
    SplitOfSlash("");
    assert ["."][1..] == [] && "" + "/" == "/" && ["", ""][1..] == [""] && [""][1..] == [];
  }

  lemma {:induction false} SplitOfSlash(s: string)
    ensures Split(s + "/") == Split(s) + [[]]
  {
    if s == [] {
      assert s + "/" == "/" && "/"[1..] == [];
    } else {
      assert (s + "/")[1..] == s[1..] + "/";
      SplitOfSlash(s[1..]);
    }
  }

  lemma {:induction false} NamedOfConcat(a: seq<string>, b: seq<string>)
    ensures Named(a + b) == Named(a) + Named(b)
  {
    if a == [] {
      assert a + b == b;
    } else {
      assert (a + b)[1..] == a[1..] + b;
      NamedOfConcat(a[1..], b);
    }
  }

  /** A slash at the end changes no part of a path. */
  lemma SlashAddsNoPart(s: string)
    ensures Parts(s + "/") == Parts(s)
  {
    SplitOfSlash(s);
    NamedOfConcat(Split(s), [[]]);
    assert [""][1..] == [];
  }

  /** So the policy accepts a file below the root also with a slash at its end, if the characters allow it. */
  lemma TrailingSlashIsAccepted(policy: PathPolicy, path: string)
    requires ValidSourcePath(policy, path) && |Parts(path)| > 1 && policy.clean(path + "/")
    ensures ValidSourcePath(policy, path + "/")
  {
    SlashAddsNoPart(path);
  }

  /** A tree of one record that is in order but looks like a directory is listed, read, written and then refused. */
  lemma OneSlashedPathIsRefused(names: Names, limits: Policy, valid: string -> bool, commit: string, r: Record,
                                data: Bytes, archive: Archive)
    requires RecordOk(names, limits, valid, commit, r) && LikeDirectory(r.path)
    requires limits.maxEntries >= 1 && |data| == r.size.value <= limits.maxTotal
    ensures var e := EntryOf(r);
            var source := SourceEntry(e.path, e.mode, e.size, names.digest(data), data);
      && Listable(names, limits, valid, commit, [r]) && Lists([e], [r]) && ReadFrom(names, [source], [e])
      && (archive.members == [WrittenMember(commit, source)] ==> !Accepted(names, limits, commit, [source], archive))
  {
    hide MemberPath, HexId, RegularMode;
    var e := EntryOf(r);
    var source := SourceEntry(e.path, e.mode, e.size, names.digest(data), data);
    assert [r][..0] == [] && TreeSize([r]) == r.size.value;
    assert Exportable(names, limits, commit, source);
    WrittenMemberIsOk(names, limits, commit, source);
    if archive.members == [WrittenMember(commit, source)] {
      assert archive.members[0] == WrittenMember(commit, source);
      OnlyMember(names, limits, commit, source, archive);
    }
  }

  lemma OnlyMember(names: Names, limits: Policy, commit: string, source: SourceEntry, archive: Archive)
    requires archive.members == [WrittenMember(commit, source)]
    ensures Accepted(names, limits, commit, [source], archive) ==>
              MemberOk(names, limits, WrittenMember(commit, source), source)
  {
    hide MemberPath, MemberOk, TotalSize;
    assert [source][..0] == [] && archive.members[0] == WrittenMember(commit, source);
    assert ByMember(commit, [source]) == map[MemberPath(commit, source.path) := source];
  }

  /** So is every valid path with a slash at its end: for each there is a record that is listed and then refused. */
  lemma SlashedPathIsRefused(names: Names, limits: Policy, policy: PathPolicy, commit: string, path: string,
                             archive: Archive)
    returns (r: Record, source: SourceEntry)
    requires ValidSourcePath(policy, path) && LikeDirectory(path)
    requires names.encodedLength(MemberPath(commit, path)) <= limits.maxPath && limits.maxEntries >= 1
    ensures Listable(names, limits, (p: string) => ValidSourcePath(policy, p), commit, [r]) && r.path == path
    ensures Lists([EntryOf(r)], [r]) && ReadFrom(names, [source], [EntryOf(r)])
    ensures archive.members == [WrittenMember(commit, source)] ==> !Accepted(names, limits, commit, [source], archive)
  {
    hide ValidSourcePath, MemberPath, Listable, Lists, Accepted, WrittenMember;
    r := Record(path, REGULAR, "blob", seq(40, _ => '0'), Some(0));
    source := SourceEntry(path, 0x81A4, 0, names.digest([]), []);
    var valid := (p: string) => ValidSourcePath(policy, p);
    assert RecordOk(names, limits, valid, commit, r);
    OneSlashedPathIsRefused(names, limits, valid, commit, r, [], archive);
  }

  /** `docs/a.md/` is such a path: what the policy looks at are the parts of `docs/a.md`. */
  lemma SlashedDocumentIsValid(policy: PathPolicy)
    requires policy.clean("docs/a.md/") && policy.below(["docs", "a.md"])
    ensures ValidSourcePath(policy, "docs/a.md/") && LikeDirectory("docs/a.md/")
  {
    hide Parts;
    DocumentParts();
  }

  lemma DocumentParts()
    ensures Parts("docs/a.md/") == ["docs", "a.md"]
  {
    hide Split, Named;
    assert "docs" + "/" + "a.md" == "docs/a.md" && "docs/a.md" + "/" == "docs/a.md/";
    SlashAddsNoPart("docs/a.md");
    SplitAtSlash("docs", "a.md");
    SplitOfPlain("a.md");
    assert ["docs"] + ["a.md"] == ["docs", "a.md"];
    NamedOfNames(["docs", "a.md"]);
  }

  lemma {:induction false} NamedOfNames(parts: seq<string>)
    requires forall i :: 0 <= i < |parts| ==> parts[i] !in ["", "."]
    ensures Named(parts) == parts
  {
    if parts != [] {
      NamedOfNames(parts[1..]);
      assert parts == [parts[0]] + parts[1..];
    }
  }

  lemma {:induction false} SplitOfPlain(s: string)
    requires '/' !in s
    ensures Split(s) == [s]
  {
    if s != [] {
      SplitOfPlain(s[1..]);
      assert s == [s[0]] + s[1..];
    }
  }

  lemma {:induction false} SplitAtSlash(s: string, rest: string)
    requires '/' !in s
    ensures Split(s + "/" + rest) == [s] + Split(rest)
  {
    if s == [] {
      assert s + "/" + rest == "/" + rest && ("/" + rest)[1..] == rest;
    } else {
      assert (s + "/" + rest)[1..] == s[1..] + "/" + rest;
      SplitAtSlash(s[1..], rest);
      assert s == [s[0]] + s[1..];
    }
  }
}
