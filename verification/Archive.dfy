/** Verifying the release archive against the tracked blobs: `_verify_archive`. */
module Archive {
  import opened Text
  import opened Catalogs
  import opened BlobStream
  import opened TreeListing

  datatype Kind = Directory | File | Symlink | Other

  /** A tar member; `content` is the file's bytes or the encoded link target, None where neither can be read. */
  datatype Member = Member(name: string, kind: Kind, content: Option<Bytes>)

  // ---------------------------------------------------------------- what agreement means

  function TrackedByPath(tracked: seq<Tracked>): (r: map<string, Tracked>)
    ensures r.Keys == set t | t in tracked :: t.path
  {
    if tracked == [] then map[]
    else
      var last := tracked[|tracked| - 1];
      assert tracked == tracked[..|tracked| - 1] + [last];
      TrackedByPath(tracked[..|tracked| - 1])[last.path := last]
  }

  function FilesByPath(files: seq<ReleaseFile>): (r: map<string, ReleaseFile>)
    ensures r.Keys == set f | f in files :: f.path
  {
    if files == [] then map[]
    else
      var last := files[|files| - 1];
      assert files == files[..|files| - 1] + [last];
      FilesByPath(files[..|files| - 1])[last.path := last]
  }

  /** The non-directory members, in archive order. */
  function Entries(members: seq<Member>): (r: seq<Member>)
  {
    if members == [] then []
    else
      var rest := Entries(members[..|members| - 1]);
      if members[|members| - 1].kind.Directory? then rest else rest + [members[|members| - 1]]
  }

  predicate Matches(sha: Bytes -> Digest, t: Tracked, f: ReleaseFile, m: Member)
  {
    && m.kind == (if t.mode == SYMLINK then Symlink else File)
    && m.content.Some?
    && |m.content.value| == f.size
    && sha(m.content.value) == f.sha
  }

  ghost predicate DistinctNames(members: seq<Member>)
  {
    forall i, j | 0 <= i < j < |members| :: members[i].name != members[j].name
  }

  function NamesOf(members: seq<Member>): (names: set<string>) { set m | m in members :: m.name }

  ghost predicate EachMatches(sha: Bytes -> Digest, tracked: map<string, Tracked>, files: map<string, ReleaseFile>,
      members: seq<Member>)
  {
    forall m | m in members :: m.name in tracked && m.name in files && Matches(sha, tracked[m.name], files[m.name], m)
  }

  /** None repeated, none extra, none missing, and each of the right kind with the right bytes. */
  ghost predicate Agrees(sha: Bytes -> Digest, tracked: seq<Tracked>, files: seq<ReleaseFile>, members: seq<Member>)
  {
    var t, f := TrackedByPath(tracked), FilesByPath(files);
    && t.Keys == f.Keys
    && DistinctNames(Entries(members))
    && NamesOf(Entries(members)) == f.Keys
    && EachMatches(sha, t, f, Entries(members))
  }

  // ---------------------------------------------------------------- the check

  method IndexTracked(tracked: seq<Tracked>) returns (r: map<string, Tracked>)
    ensures r == TrackedByPath(tracked)
  {
    r := map[];
    for i := 0 to |tracked|
      invariant r == TrackedByPath(tracked[..i])
    {
      assert tracked[..i + 1][..i] == tracked[..i];
      r := r[tracked[i].path := tracked[i]];
    }
    assert tracked[..|tracked|] == tracked;
  }

  method IndexFiles(files: seq<ReleaseFile>) returns (r: map<string, ReleaseFile>)
    ensures r == FilesByPath(files)
  {
    r := map[];
    for i := 0 to |files|
      invariant r == FilesByPath(files[..i])
    {
      assert files[..i + 1][..i] == files[..i];
      r := r[files[i].path := files[i]];
    }
    assert files[..|files|] == files;
  }

  lemma EntriesStep(members: seq<Member>, i: nat)
    requires i < |members|
    ensures Entries(members[..i + 1])
         == if members[i].kind.Directory? then Entries(members[..i]) else Entries(members[..i]) + [members[i]]
  {
    assert members[..i + 1][..i] == members[..i];
  }

  lemma {:induction false} EntriesKeep(members: seq<Member>, i: nat)
    requires i <= |members|
    ensures Entries(members[..i]) <= Entries(members)
    decreases |members| - i
  {
    if i < |members| {
      EntriesStep(members, i);
      EntriesKeep(members, i + 1);
    } else {
      assert members[..i] == members;
    }
  }

  /** One more matching member with a new name. */
  lemma OneMore(sha: Bytes -> Digest, t: map<string, Tracked>, f: map<string, ReleaseFile>, seen: seq<Member>,
      m: Member)
    requires DistinctNames(seen) && EachMatches(sha, t, f, seen)
    ensures DistinctNames(seen + [m]) <==> m.name !in NamesOf(seen)
    ensures EachMatches(sha, t, f, seen + [m]) <==> m.name in t && m.name in f && Matches(sha, t[m.name], f[m.name], m)
    ensures NamesOf(seen + [m]) == NamesOf(seen) + {m.name}
  {
    hide Matches;
    var more := seen + [m];
    assert forall x :: x in more <==> x in seen || x == m;
    assert more[|seen|] == m && forall i | 0 <= i < |seen| :: more[i] == seen[i];
    if m.name in NamesOf(seen) {
      var x :| x in seen && x.name == m.name;
      var i :| 0 <= i < |seen| && seen[i] == x;
      assert more[i].name == more[|seen|].name;
    } else {
      assert forall i | 0 <= i < |seen| :: seen[i] in seen && seen[i].name in NamesOf(seen);
    }
  }

  lemma PrefixAgrees(sha: Bytes -> Digest, t: map<string, Tracked>, f: map<string, ReleaseFile>, a: seq<Member>,
      b: seq<Member>)
    requires a <= b
    ensures DistinctNames(b) ==> DistinctNames(a)
    ensures EachMatches(sha, t, f, b) ==> EachMatches(sha, t, f, a)
  {
  }

  /** `_verify_archive` accepts exactly the archives that agree with the tracked blobs. */
  method VerifyArchive(sha: Bytes -> Digest, tracked: seq<Tracked>, files: seq<ReleaseFile>, members: seq<Member>)
    returns (ok: bool)
    ensures ok <==> Agrees(sha, tracked, files, members)
  {
    hide Matches, DistinctNames, EachMatches, NamesOf, Entries;
    var expectedTracked := IndexTracked(tracked);
    var expectedFiles := IndexFiles(files);
    if expectedTracked.Keys != expectedFiles.Keys {
      return false;
    }
    var seen: set<string> := {};
    NothingSeen(sha, expectedTracked, expectedFiles);
    assert members[..0] == [];
    for i := 0 to |members|
      invariant DistinctNames(Entries(members[..i]))
      invariant EachMatches(sha, expectedTracked, expectedFiles, Entries(members[..i]))
      invariant seen == NamesOf(Entries(members[..i]))
      invariant seen <= expectedFiles.Keys
    {
      var member := members[i];
      EntriesStep(members, i);
      if member.kind.Directory? {
        continue;
      }
      OneMore(sha, expectedTracked, expectedFiles, Entries(members[..i]), member);
      EntriesKeep(members, i + 1);
      PrefixAgrees(sha, expectedTracked, expectedFiles, Entries(members[..i + 1]), Entries(members));
      var path := member.name;
      if path in seen {
        return false;
      }
      if path !in expectedFiles || path !in expectedTracked {
        return false;
      }
      seen := seen + {path};
      var good := MatchesExpected(sha, expectedTracked[path], expectedFiles[path], member);
      if !good {
        return false;
      }
    }
    assert members[..|members|] == members;
    return expectedFiles.Keys <= seen;
  }

  /** The kind, content and digest checks on one member. */
  method MatchesExpected(sha: Bytes -> Digest, t: Tracked, f: ReleaseFile, m: Member) returns (good: bool)
    ensures good <==> Matches(sha, t, f, m)
  {
    if t.mode == SYMLINK {
      if !m.kind.Symlink? {
        return false;
      }
    } else if !m.kind.File? {
      return false;
    }
    if m.content.None? {
      return false;
    }
    var content := m.content.value;
    return |content| == f.size && sha(content) == f.sha;
  }

  lemma NothingSeen(sha: Bytes -> Digest, t: map<string, Tracked>, f: map<string, ReleaseFile>)
    ensures Entries([]) == [] && DistinctNames([]) && EachMatches(sha, t, f, []) && NamesOf([]) == {}
  {
  }

  // ---------------------------------------------------------------- the bijection

  ghost predicate DistinctTracked(tracked: seq<Tracked>)
  {
    forall i, j | 0 <= i < j < |tracked| :: tracked[i].path != tracked[j].path
  }

  lemma {:induction false} ByPathAt(tracked: seq<Tracked>, i: nat)
    requires DistinctTracked(tracked) && i < |tracked|
    ensures tracked[i].path in TrackedByPath(tracked) && TrackedByPath(tracked)[tracked[i].path] == tracked[i]
  {
    var n := |tracked| - 1;
    if i < n {
      ByPathAt(tracked[..n], i);
      assert tracked[i].path != tracked[n].path;
    }
  }

  lemma {:induction false} NameCount(members: seq<Member>)
    requires DistinctNames(members)
    ensures |NamesOf(members)| == |members|
  {
    if members != [] {
      var n := |members| - 1;
      NameCount(members[..n]);
      assert members == members[..n] + [members[n]];
      assert NamesOf(members) == NamesOf(members[..n]) + {members[n].name};
      assert members[n].name !in NamesOf(members[..n]);
    }
  }

  function Paths(tracked: seq<Tracked>): (paths: set<string>) { set t | t in tracked :: t.path }

  lemma DistinctSnoc(init: seq<Tracked>, last: Tracked)
    ensures DistinctTracked(init + [last]) <==> DistinctTracked(init) && last.path !in Paths(init)
    ensures Paths(init + [last]) == Paths(init) + {last.path}
  {
    var tracked := init + [last];
    var n := |init|;
    assert tracked[n] == last && forall i | 0 <= i < n :: tracked[i] == init[i];
    if last.path in Paths(init) {
      var t :| t in init && t.path == last.path;
      var i :| 0 <= i < n && init[i] == t;
      assert tracked[i].path == tracked[n].path;
    } else {
      assert forall i | 0 <= i < n :: init[i] in init && init[i].path in Paths(init);
    }
  }

  lemma {:induction false} PathCount(tracked: seq<Tracked>)
    ensures |Paths(tracked)| <= |tracked|
    ensures |Paths(tracked)| == |tracked| <==> DistinctTracked(tracked)
  {
    if tracked == [] {
      assert Paths(tracked) == {};
    } else {
      hide DistinctTracked, Paths;
      var n := |tracked| - 1;
      var init := tracked[..n];
      PathCount(init);
      DistinctSnoc(init, tracked[n]);
      assert tracked == init + [tracked[n]];
      OneMorePath(Paths(init), tracked[n].path);
    }
  }

  lemma OneMorePath(paths: set<string>, p: string)
    ensures |paths + {p}| == if p in paths then |paths| else |paths| + 1
  {
    if p in paths {
      assert paths + {p} == paths;
    }
  }

  /** Entry `k` is the only archive entry for this tracked path, and it is the right one. */
  ghost predicate OnlyEntry(sha: Bytes -> Digest, t: Tracked, f: map<string, ReleaseFile>, entries: seq<Member>, k: nat)
  {
    && k < |entries|
    && entries[k].name == t.path
    && t.path in f
    && Matches(sha, t, f[t.path], entries[k])
    && forall l | 0 <= l < |entries| && entries[l].name == t.path :: l == k
  }

  ghost predicate HasOnlyEntry(sha: Bytes -> Digest, t: Tracked, f: map<string, ReleaseFile>, entries: seq<Member>)
  {
    exists k: nat :: OnlyEntry(sha, t, f, entries, k)
  }

  lemma EntryForTracked(sha: Bytes -> Digest, tracked: seq<Tracked>, f: map<string, ReleaseFile>, entries: seq<Member>,
      i: nat)
    requires DistinctTracked(tracked) && i < |tracked|
    requires DistinctNames(entries) && NamesOf(entries) == TrackedByPath(tracked).Keys == f.Keys
    requires EachMatches(sha, TrackedByPath(tracked), f, entries)
    ensures HasOnlyEntry(sha, tracked[i], f, entries)
  {
    hide Matches;
    ByPathAt(tracked, i);
    assert tracked[i].path in NamesOf(entries);
    var m :| m in entries && m.name == tracked[i].path;
    var k :| 0 <= k < |entries| && entries[k] == m;
    hide TrackedByPath, NamesOf, DistinctTracked;
    assert OnlyEntry(sha, tracked[i], f, entries, k);
  }

  /**
   * When verification succeeds, every tracked entry has exactly one archive entry of its path, of the
   * right kind and with the manifest's size and digest; and there are as many archive entries as
   * tracked entries exactly when no tracked path repeats.
   */
  lemma VerifiedArchiveIsABijection(sha: Bytes -> Digest, tracked: seq<Tracked>, files: seq<ReleaseFile>,
      members: seq<Member>)
    requires Agrees(sha, tracked, files, members)
    ensures |Entries(members)| == |tracked| <==> DistinctTracked(tracked)
    ensures DistinctTracked(tracked) ==>
              forall i | 0 <= i < |tracked| :: HasOnlyEntry(sha, tracked[i], FilesByPath(files), Entries(members))
  {
    hide Matches, Entries, EachMatches, DistinctNames, DistinctTracked, HasOnlyEntry;
    NameCount(Entries(members));
    PathCount(tracked);
    assert TrackedByPath(tracked).Keys == Paths(tracked);
    if DistinctTracked(tracked) {
      forall i | 0 <= i < |tracked|
        ensures HasOnlyEntry(sha, tracked[i], FilesByPath(files), Entries(members))
      {
        EntryForTracked(sha, tracked, FilesByPath(files), Entries(members), i);
      }
    }
  }

  // ---------------------------------------------------------------- from blobs to archive

  /** The manifest `_read_blobs` builds for these blob contents. */
  function Manifest(sha: Bytes -> Digest, tracked: seq<Tracked>, contents: seq<Bytes>): (files: seq<ReleaseFile>)
    requires |tracked| == |contents|
  {
    seq(|tracked|, i requires 0 <= i < |tracked| => ReleaseFile(tracked[i].path, sha(contents[i]), |contents[i]|))
  }

  lemma {:induction false} ManifestAt(sha: Bytes -> Digest, tracked: seq<Tracked>, contents: seq<Bytes>, i: nat)
    requires |tracked| == |contents| && DistinctTracked(tracked) && i < |tracked|
    ensures var f := FilesByPath(Manifest(sha, tracked, contents));
            tracked[i].path in f && f[tracked[i].path] == ReleaseFile(tracked[i].path, sha(contents[i]), |contents[i]|)
  {
    var n := |tracked| - 1;
    var files := Manifest(sha, tracked, contents);
    assert files[..n] == Manifest(sha, tracked[..n], contents[..n]);
    assert files[n] == ReleaseFile(tracked[n].path, sha(contents[n]), |contents[n]|);
    if i < n {
      ManifestAt(sha, tracked[..n], contents[..n], i);
      assert tracked[i].path != tracked[n].path;
    }
  }

  /** The archive entry a tracked blob must have. */
  function Expected(t: Tracked, content: Bytes): Member
  {
    Member(t.path, if t.mode == SYMLINK then Symlink else File, Some(content))
  }

  function ExpectedAll(tracked: seq<Tracked>, contents: seq<Bytes>): (members: set<Member>)
    requires |tracked| == |contents|
  {
    set i | 0 <= i < |tracked| :: Expected(tracked[i], contents[i])
  }

  function MemberSet(members: seq<Member>): (r: set<Member>) { set m | m in members }

  ghost predicate Injective(sha: Bytes -> Digest)
  {
    forall a, b {:trigger sha(a), sha(b)} :: sha(a) == sha(b) ==> a == b
  }

  /** A member matches the manifest's line for a blob exactly when it is that blob's entry. */
  lemma MatchesIsExpected(sha: Bytes -> Digest, t: Tracked, content: Bytes, m: Member)
    requires Injective(sha) && m.name == t.path
    ensures Matches(sha, t, ReleaseFile(t.path, sha(content), |content|), m) <==> m == Expected(t, content)
  {
    if Matches(sha, t, ReleaseFile(t.path, sha(content), |content|), m) {
      assert sha(m.content.value) == sha(content);
    }
  }

  lemma ManifestKeys(sha: Bytes -> Digest, tracked: seq<Tracked>, contents: seq<Bytes>)
    requires |tracked| == |contents|
    ensures FilesByPath(Manifest(sha, tracked, contents)).Keys == TrackedByPath(tracked).Keys
  {
    hide FilesByPath, TrackedByPath;
    var files := Manifest(sha, tracked, contents);
    assert |files| == |tracked| && forall i | 0 <= i < |tracked| :: files[i].path == tracked[i].path;
    forall p | p in FilesByPath(files).Keys
      ensures p in TrackedByPath(tracked).Keys
    {
      var f :| f in files && f.path == p;
      var i :| 0 <= i < |files| && files[i] == f;
      assert tracked[i] in tracked;
    }
    forall p | p in TrackedByPath(tracked).Keys
      ensures p in FilesByPath(files).Keys
    {
      var t :| t in tracked && t.path == p;
      var i :| 0 <= i < |tracked| && tracked[i] == t;
      assert files[i] in files;
    }
  }

  lemma IndexOf(tracked: seq<Tracked>, p: string) returns (i: nat)
    requires p in TrackedByPath(tracked).Keys
    ensures i < |tracked| && tracked[i].path == p
  {
    var t :| t in tracked && t.path == p;
    i :| 0 <= i < |tracked| && tracked[i] == t;
  }

  /** The manifest's line, the tracked entry and the expected member of one path. */
  lemma LineAt(sha: Bytes -> Digest, tracked: seq<Tracked>, contents: seq<Bytes>, i: nat, m: Member)
    requires Injective(sha) && |tracked| == |contents| && DistinctTracked(tracked) && i < |tracked|
    requires m.name == tracked[i].path
    ensures var t, f := TrackedByPath(tracked), FilesByPath(Manifest(sha, tracked, contents));
            && m.name in t && m.name in f
            && (Matches(sha, t[m.name], f[m.name], m) <==> m == Expected(tracked[i], contents[i]))
  {
    hide Matches, Manifest, FilesByPath, TrackedByPath, Expected;
    ByPathAt(tracked, i);
    ManifestAt(sha, tracked, contents, i);
    MatchesIsExpected(sha, tracked[i], contents[i], m);
  }

  /** Every tracked path is an entry's name exactly when every expected member is an entry. */
  lemma VerifiedHasAll(sha: Bytes -> Digest, tracked: seq<Tracked>, contents: seq<Bytes>, entries: seq<Member>)
    requires Injective(sha) && |tracked| == |contents| && DistinctTracked(tracked)
    requires NamesOf(entries) == TrackedByPath(tracked).Keys
    requires EachMatches(sha, TrackedByPath(tracked), FilesByPath(Manifest(sha, tracked, contents)), entries)
    ensures MemberSet(entries) == ExpectedAll(tracked, contents)
  {
    hide Matches, Manifest, FilesByPath, Expected, Injective, TrackedByPath, DistinctTracked, MemberSet, ExpectedAll;
    forall m | m in entries
      ensures m in ExpectedAll(tracked, contents)
    {
      assert m.name in NamesOf(entries);
      var i := IndexOf(tracked, m.name);
      LineAt(sha, tracked, contents, i, m);
      ExpectedAt(tracked, contents, i);
    }
    forall i | 0 <= i < |tracked|
      ensures Expected(tracked[i], contents[i]) in entries
    {
      ByPathAt(tracked, i);
      var m :| m in entries && m.name == tracked[i].path;
      LineAt(sha, tracked, contents, i, m);
    }
    SameMembers(tracked, contents, entries);
  }

  lemma ExpectedAt(tracked: seq<Tracked>, contents: seq<Bytes>, i: nat)
    requires |tracked| == |contents| && i < |tracked|
    ensures Expected(tracked[i], contents[i]) in ExpectedAll(tracked, contents)
  {
    hide Expected;
  }

  lemma SameMembers(tracked: seq<Tracked>, contents: seq<Bytes>, entries: seq<Member>)
    requires |tracked| == |contents|
    requires forall m | m in entries :: m in ExpectedAll(tracked, contents)
    requires forall i | 0 <= i < |tracked| :: Expected(tracked[i], contents[i]) in entries
    ensures MemberSet(entries) == ExpectedAll(tracked, contents)
  {
    hide Expected;
  }

  lemma ExpectedName(t: Tracked, content: Bytes)
    ensures Expected(t, content).name == t.path
  {
  }

  lemma AllExpectedVerify(sha: Bytes -> Digest, tracked: seq<Tracked>, contents: seq<Bytes>, entries: seq<Member>)
    requires Injective(sha) && |tracked| == |contents| && DistinctTracked(tracked)
    requires MemberSet(entries) == ExpectedAll(tracked, contents)
    ensures NamesOf(entries) == TrackedByPath(tracked).Keys
    ensures EachMatches(sha, TrackedByPath(tracked), FilesByPath(Manifest(sha, tracked, contents)), entries)
  {
    hide Matches, Manifest, FilesByPath, Expected, Injective, TrackedByPath;
    var t, f := TrackedByPath(tracked), FilesByPath(Manifest(sha, tracked, contents));
    forall m | m in entries
      ensures m.name in t && m.name in f && Matches(sha, t[m.name], f[m.name], m)
    {
      assert m in MemberSet(entries);
      var i :| 0 <= i < |tracked| && m == Expected(tracked[i], contents[i]);
      ExpectedName(tracked[i], contents[i]);
      LineAt(sha, tracked, contents, i, m);
    }
    forall p | p in t.Keys
      ensures p in NamesOf(entries)
    {
      var i := IndexOf(tracked, p);
      ExpectedName(tracked[i], contents[i]);
      assert Expected(tracked[i], contents[i]) in MemberSet(entries);
    }
  }

  /**
   * With the blobs' own manifest and a collision-free digest, an archive is verified exactly when its
   * entries are, without repetition, the tracked paths with their kinds and their blobs' bytes.
   */
  lemma VerifiedArchiveCarriesTheBlobs(sha: Bytes -> Digest, tracked: seq<Tracked>, contents: seq<Bytes>,
      members: seq<Member>)
    requires Injective(sha) && |tracked| == |contents| && DistinctTracked(tracked)
    ensures Agrees(sha, tracked, Manifest(sha, tracked, contents), members)
       <==> DistinctNames(Entries(members)) && MemberSet(Entries(members)) == ExpectedAll(tracked, contents)
  {
    hide Entries, EachMatches, DistinctNames, Manifest, FilesByPath, TrackedByPath, NamesOf, MemberSet, ExpectedAll,
         Injective, DistinctTracked;
    ManifestKeys(sha, tracked, contents);
    if Agrees(sha, tracked, Manifest(sha, tracked, contents), members) {
      VerifiedHasAll(sha, tracked, contents, Entries(members));
    }
    if MemberSet(Entries(members)) == ExpectedAll(tracked, contents) {
      AllExpectedVerify(sha, tracked, contents, Entries(members));
    }
  }
}
