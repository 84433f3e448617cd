/** From the commit's listing to its verified archive: `build_release_manifest`. */
module Releases {
  import opened Text
  import opened Ordering
  import opened TextOrder
  import opened Catalogs
  import opened BlobStream
  import opened BlobFrames
  import opened TreeListing
  import opened Archive

  /** A commit: its entries in listing order, their raw paths, and the object store. */
  datatype Commit = Commit(entries: seq<Tracked>, rawPaths: seq<Bytes>, blobs: Bytes -> Bytes)

  function BlobsOf(blobs: Bytes -> Bytes, ids: seq<Bytes>): (contents: seq<Bytes>)
    ensures |contents| == |ids|
  {
    seq(|ids|, i requires 0 <= i < |ids| => blobs(ids[i]))
  }

  /** What git promises of a commit: distinct readable paths, supported modes, plain object ids. */
  ghost predicate CommitOK(decode: Bytes -> Option<string>, c: Commit)
  {
    && |c.entries| == |c.rawPaths|
    && DistinctTracked(c.entries)
    && PlainIds(Ids(c.entries))
    && forall i | 0 <= i < |c.entries| ::
         PlainEntry(c.entries[i]) && NUL !in c.rawPaths[i] && decode(c.rawPaths[i]) == Some(c.entries[i].path)
  }

  /** What `git ls-tree` prints for the commit and `git cat-file --batch` for any object ids. */
  ghost predicate Prints(c: Commit, listing: Bytes, catFile: seq<Bytes> -> Bytes)
    requires |c.entries| == |c.rawPaths|
  {
    && listing == Listing(Records(c.entries, c.rawPaths))
    && forall ids: seq<Bytes> :: catFile(ids) == Frames(ids, BlobsOf(c.blobs, ids))
  }

  /** The archive entries the commit asks for. */
  function CommitFiles(c: Commit): (members: set<Member>)
  {
    set t | t in c.entries :: Expected(t, c.blobs(t.objectId))
  }

  function InPathOrder(c: Commit): (tracked: seq<Tracked>) { SortBy(c.entries, PathOrder) }

  function CommitManifest(sha: Bytes -> Digest, c: Commit): (files: seq<ReleaseFile>)
  {
    Manifest(sha, InPathOrder(c), BlobsOf(c.blobs, Ids(InPathOrder(c))))
  }

  /** One line for each entry, with its blob's digest and size, in ascending order of paths. */
  ghost predicate ManifestOf(sha: Bytes -> Digest, c: Commit, files: seq<ReleaseFile>)
  {
    && (forall f :: f in files <==>
          exists t :: t in c.entries && f == ReleaseFile(t.path, sha(c.blobs(t.objectId)), |c.blobs(t.objectId)|))
    && forall i, j | 0 <= i < j < |files| :: Below(files[i].path, files[j].path)
  }

  lemma PathOrderAscends(c: Commit)
    requires DistinctTracked(c.entries)
    ensures var tracked := InPathOrder(c);
            forall i, j | 0 <= i < j < |tracked| :: Below(tracked[i].path, tracked[j].path)
  {
    hide SortBy, Below, Before;
    var tracked := InPathOrder(c);
    forall i, j | 0 <= i < j < |c.entries|
      ensures PathOrder(c.entries[i]) != PathOrder(c.entries[j])
    {
      TextKeyInjective(c.entries[i].path, c.entries[j].path);
    }
    SortIsStrict(c.entries, PathOrder);
    forall i, j | 0 <= i < j < |tracked|
      ensures Below(tracked[i].path, tracked[j].path)
    {
      TextKeysOrder(tracked[i].path, tracked[j].path);
    }
  }

  lemma CommitManifestIs(sha: Bytes -> Digest, c: Commit)
    requires DistinctTracked(c.entries)
    ensures ManifestOf(sha, c, CommitManifest(sha, c))
  {
    hide SortBy, Below, DistinctTracked, PlainIds;
    var tracked, files := InPathOrder(c), CommitManifest(sha, c);
    PathOrderAscends(c);
    OrderKeepsEntries(c);
    assert |files| == |tracked| && forall i | 0 <= i < |files| :: files[i].path == tracked[i].path;
    forall i | 0 <= i < |files|
      ensures files[i]
           == ReleaseFile(tracked[i].path, sha(c.blobs(tracked[i].objectId)), |c.blobs(tracked[i].objectId)|)
    {
      assert BlobsOf(c.blobs, Ids(tracked))[i] == c.blobs(tracked[i].objectId);
    }
    forall f: ReleaseFile
      ensures f in files <==>
                exists t :: t in c.entries && f == ReleaseFile(t.path, sha(c.blobs(t.objectId)), |c.blobs(t.objectId)|)
    {
      if f in files {
        var i :| 0 <= i < |files| && files[i] == f;
        assert tracked[i] in c.entries;
      }
      if t :| t in c.entries && f == ReleaseFile(t.path, sha(c.blobs(t.objectId)), |c.blobs(t.objectId)|) {
        assert t in tracked;
        var i :| 0 <= i < |tracked| && tracked[i] == t;
        assert files[i] == f;
      }
    }
  }

  // ---------------------------------------------------------------- the stages

  lemma SameParse(decode: Bytes -> Option<string>, records: seq<Bytes>, a: seq<Tracked>, b: seq<Tracked>)
    requires Parses(decode, records, a) && Parses(decode, records, b)
    ensures a == b && AllParse(decode, records)
  {
    hide ParseRecord;
    forall i | 0 <= i < |records|
      ensures ParseRecord(decode, records[i]) == Some(a[i]) == Some(b[i])
    {
    }
  }

  /** The commit's own listing is read back, in path order. */
  method ReadListing(decode: Bytes -> Option<string>, listing: Bytes, ghost c: Commit) returns (r: Option<seq<Tracked>>)
    ensures CommitOK(decode, c) && listing == Listing(Records(c.entries, c.rawPaths)) ==> r == Some(InPathOrder(c))
  {
    hide ParseRecord, SortBy, Split, NonEmpty, Listing, Records;
    r := TrackedFiles(decode, listing);
    if CommitOK(decode, c) && listing == Listing(Records(c.entries, c.rawPaths)) {
      ListingRoundTrip(decode, c.entries, c.rawPaths);
      var records := Records(c.entries, c.rawPaths);
      SameParse(decode, records, c.entries, c.entries);
      var tracked :| Parses(decode, records, tracked) && r.value == SortBy(tracked, PathOrder);
      SameParse(decode, records, tracked, c.entries);
    }
  }

  lemma ManifestFromFrames(sha: Bytes -> Digest, tracked: seq<Tracked>, contents: seq<Bytes>, files: seq<ReleaseFile>)
    requires |files| == |tracked| == |contents| && PlainIds(Ids(tracked))
    requires var r := TakeAll(Frames(Ids(tracked), contents), 0, Ids(tracked));
             && r.Some? && |r.value.0| == |tracked|
             && forall i | 0 <= i < |tracked| :: files[i] == Describe(sha, tracked[i], r.value.0[i])
    ensures files == Manifest(sha, tracked, contents)
  {
    hide TakeAll, Frames;
    StreamRoundTrip(tracked, contents);
  }

  /** The blobs' framed stream is read to exactly their manifest. */
  method ReadFramedBlobs(sha: Bytes -> Digest, tracked: seq<Tracked>, response: Bytes, ghost contents: seq<Bytes>)
    returns (r: Option<seq<ReleaseFile>>)
    ensures |contents| == |tracked| && PlainIds(Ids(tracked)) && response == Frames(Ids(tracked), contents) ==>
              r == Some(Manifest(sha, tracked, contents))
  {
    hide TakeAll, Frames, PlainIds, CanonicalSize;
    r := ReadBlobs(sha, tracked, response);
    if |contents| == |tracked| && PlainIds(Ids(tracked)) && response == Frames(Ids(tracked), contents) {
      StreamRoundTrip(tracked, contents);
      if tracked == [] {
        assert Manifest(sha, tracked, contents) == [];
      } else {
        ManifestFromFrames(sha, tracked, contents, r.value);
      }
    }
  }

  lemma OrderKeepsEntries(c: Commit)
    requires DistinctTracked(c.entries)
    ensures DistinctTracked(InPathOrder(c))
    ensures forall t :: t in InPathOrder(c) <==> t in c.entries
    ensures PlainIds(Ids(c.entries)) ==> PlainIds(Ids(InPathOrder(c)))
  {
    hide SortBy, PlainId;
    var tracked := InPathOrder(c);
    forall i, j | 0 <= i < j < |c.entries|
      ensures PathOrder(c.entries[i]) != PathOrder(c.entries[j])
    {
      TextKeyInjective(c.entries[i].path, c.entries[j].path);
    }
    SortByDistinct(c.entries, PathOrder);
    forall t: Tracked
      ensures t in tracked <==> t in c.entries
    {
      SortByMember(c.entries, PathOrder, t);
    }
    forall i, j | 0 <= i < j < |tracked|
      ensures tracked[i].path != tracked[j].path
    {
      assert PathOrder(tracked[i]) != PathOrder(tracked[j]);
    }
    if PlainIds(Ids(c.entries)) {
      forall i | 0 <= i < |tracked|
        ensures PlainId(tracked[i].objectId)
      {
        assert tracked[i] in c.entries;
        var k :| 0 <= k < |c.entries| && c.entries[k] == tracked[i];
        assert PlainId(Ids(c.entries)[k]);
      }
    }
  }

  lemma OrderedFilesAre(c: Commit)
    requires DistinctTracked(c.entries)
    ensures ExpectedAll(InPathOrder(c), BlobsOf(c.blobs, Ids(InPathOrder(c)))) == CommitFiles(c)
  {
    hide SortBy, Expected, DistinctTracked, PlainIds;
    OrderKeepsEntries(c);
    var tracked := InPathOrder(c);
    var contents := BlobsOf(c.blobs, Ids(tracked));
    forall i | 0 <= i < |tracked|
      ensures Expected(tracked[i], contents[i]) in CommitFiles(c)
    {
      assert tracked[i] in c.entries;
    }
    forall t | t in c.entries
      ensures Expected(t, c.blobs(t.objectId)) in ExpectedAll(tracked, contents)
    {
      assert t in tracked;
      var i :| 0 <= i < |tracked| && tracked[i] == t;
      assert Expected(tracked[i], contents[i]) in ExpectedAll(tracked, contents);
    }
  }

  // ---------------------------------------------------------------- the whole pipeline

  /**
   * `build_release_manifest`, from the listing's bytes to the archive's. On what git prints for any
   * commit and any archive, it succeeds exactly when the paths are hygienic and the archive holds,
   * without repetition, exactly the commit's files with their kinds and bytes; and it then returns
   * the commit's manifest in path order.
   */
  method BuildManifest(
      decode: Bytes -> Option<string>, sha: Bytes -> Digest, hygienic: seq<Tracked> -> bool, listing: Bytes,
      catFile: seq<Bytes> -> Bytes, members: seq<Member>, ghost c: Commit) returns (r: Option<seq<ReleaseFile>>)
    ensures Injective(sha) && CommitOK(decode, c) && Prints(c, listing, catFile) ==>
              && (r.Some? <==>
                    && hygienic(InPathOrder(c))
                    && DistinctNames(Entries(members))
                    && MemberSet(Entries(members)) == CommitFiles(c))
              && (r.Some? ==> ManifestOf(sha, c, r.value))
  {
    hide Entries, Agrees, DistinctNames, DistinctTracked, MemberSet, CommitFiles, Listing, Records, SortBy, Frames,
         Manifest, PlainIds, ExpectedAll, Injective, ManifestOf;
    ghost var honest := Injective(sha) && CommitOK(decode, c) && Prints(c, listing, catFile);
    if honest {
      OrderKeepsEntries(c);
      OrderedFilesAre(c);
      CommitManifestIs(sha, c);
    }
    var tracked := ReadListing(decode, listing, c);
    if tracked.None? || !hygienic(tracked.value) {
      return None;
    }
    ghost var contents := BlobsOf(c.blobs, Ids(tracked.value));
    var files := ReadFramedBlobs(sha, tracked.value, catFile(Ids(tracked.value)), contents);
    if files.None? {
      return None;
    }
    var ok := VerifyArchive(sha, tracked.value, files.value, members);
    if honest {
      VerifiedArchiveCarriesTheBlobs(sha, tracked.value, contents, members);
    }
    return if ok then files else None;
  }
}
