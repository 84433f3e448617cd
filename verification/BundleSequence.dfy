/** A bundle is the same whatever order it is written in; undisturbed runs of bundles and of single schemas. */
module BundleSequence {
  import opened Text
  import opened Ordering
  import opened Catalogs
  import opened Registry
  import opened Planning
  import opened Transactions
  import opened Publication
  import opened CrashSafety
  import opened Replanning
  import opened Convergence

  // ---------------------------------------------------------------- permutations

  ghost predicate NoRepeats<T>(s: seq<T>) { forall i, j | 0 <= i < j < |s| :: s[i] != s[j] }

  lemma {:induction false} NoRepeatsCounts<T>(s: seq<T>)
    requires NoRepeats(s)
    ensures forall x :: multiset(s)[x] <= 1
  {
    if s != [] {
      NoRepeatsCounts(s[1..]);
      assert s == [s[0]] + s[1..];
      assert s[0] !in s[1..];
      assert s[0] !in multiset(s[1..]);
    }
  }

  lemma CountsNoRepeats<T>(s: seq<T>)
    requires forall x :: multiset(s)[x] <= 1
    ensures NoRepeats(s)
  {
    forall i, j | 0 <= i < j < |s|
      ensures s[i] != s[j]
    {
      assert s == s[..i] + [s[i]] + s[i + 1..];
      assert multiset(s) == multiset(s[..i]) + multiset{s[i]} + multiset(s[i + 1..]);
      assert s[j] == s[i + 1..][j - i - 1];
      assert multiset(s[i + 1..])[s[j]] >= 1;
      assert multiset(s)[s[j]] <= 1;
    }
  }

  ghost predicate Apart(x: Candidate, y: Candidate)
  {
    && (x.schemaId, x.version) != (y.schemaId, y.version)
    && x.artifactPath != y.artifactPath
    && x.source != y.source
  }

  lemma UniqueMeans(cs: seq<Candidate>)
    ensures UniqueInputs(cs) <==> NoRepeats(cs) && forall x, y | x in cs && y in cs && x != y :: Apart(x, y)
  {
    if UniqueInputs(cs) {
      forall x, y | x in cs && y in cs && x != y
        ensures Apart(x, y)
      {
        var i :| 0 <= i < |cs| && cs[i] == x;
        var j :| 0 <= j < |cs| && cs[j] == y;
      }
      forall i, j | 0 <= i < j < |cs|
        ensures cs[i] != cs[j]
      {
      }
    }
    if NoRepeats(cs) && forall x, y | x in cs && y in cs && x != y :: Apart(x, y) {
      forall i, j | 0 <= i < j < |cs|
        ensures Apart(cs[i], cs[j])
      {
        assert cs[i] != cs[j];
      }
    }
  }

  lemma UniqueForgetsOrder(a: seq<Candidate>, b: seq<Candidate>)
    requires multiset(a) == multiset(b) && UniqueInputs(a)
    ensures UniqueInputs(b)
  {
    UniqueMeans(a);
    UniqueMeans(b);
    hide UniqueInputs, Apart;
    NoRepeatsCounts(a);
    CountsNoRepeats(b);
    SameMembers(a, b);
  }

  lemma SameMembers<T>(a: seq<T>, b: seq<T>)
    requires multiset(a) == multiset(b)
    ensures forall x :: x in a <==> x in b
    ensures |a| == |b|
  {
    assert forall x :: (x in a <==> x in multiset(a)) && (x in b <==> x in multiset(b));
    assert |a| == |multiset(a)| && |b| == |multiset(b)|;
  }

  lemma ItemsForgetOrder(w: World, d: Disk, a: seq<Candidate>, b: seq<Candidate>)
    requires multiset(a) == multiset(b) && BundleItemsOK(w, d, a)
    ensures BundleItemsOK(w, d, b)
  {
    hide BundleItemOK;
    SameMembers(a, b);
    forall i | 0 <= i < |b|
      ensures BundleItemOK(w, d, b[i])
    {
      assert b[i] in a;
      var j :| 0 <= j < |a| && a[j] == b[i];
    }
  }

  lemma PlanDependsOnSorted(w: World, d: Disk, a: seq<Candidate>, b: seq<Candidate>)
    requires UniqueInputs(a) && UniqueInputs(b) && (a == [] <==> b == [])
    requires BundleItemsOK(w, d, a) == BundleItemsOK(w, d, b)
    requires SortBy(a, CandidateKey) == SortBy(b, CandidateKey)
    ensures PlanBundle(w, d, a) == PlanBundle(w, d, b)
  {
  }

  /** Any permutation of the manifest plans the same transaction: same new catalog, same artifacts, same marker. */
  lemma ManifestOrderIsIrrelevant(w: World, d: Disk, a: seq<Candidate>, b: seq<Candidate>)
    requires multiset(a) == multiset(b)
    ensures PlanBundle(w, d, a) == PlanBundle(w, d, b)
  {
    hide RegistryOK, UniqueInputs, BundleItemsOK, SortBy, PlanBundle;
    SameMembers(a, b);
    if UniqueInputs(a) {
      UniqueForgetsOrder(a, b);
      BundleDistinct(a);
      SortForgetsOrder(a, b, CandidateKey);
      if BundleItemsOK(w, d, a) {
        ItemsForgetOrder(w, d, a, b);
      } else if BundleItemsOK(w, d, b) {
        ItemsForgetOrder(w, d, b, a);
      }
      PlanDependsOnSorted(w, d, a, b);
    } else {
      if UniqueInputs(b) {
        UniqueForgetsOrder(b, a);
      }
      RepeatsRefused(w, d, a);
      RepeatsRefused(w, d, b);
    }
  }

  lemma RepeatsRefused(w: World, d: Disk, cs: seq<Candidate>)
    requires !UniqueInputs(cs)
    ensures PlanBundle(w, d, cs) == Refuse
  {
  }

  // ---------------------------------------------------------------- one at a time

  /** Undisturbed single registrations, one after another. */
  function OneByOne(w: World, d: Disk, cs: seq<Candidate>): (r: Disk)
    decreases |cs|
  {
    if cs == [] then d
    else Finish(w, Single(cs[|cs| - 1]), Attempt(OneByOne(w, d, cs[..|cs| - 1]))).disk
  }

  ghost predicate Startable(w: World, c: Candidate, d: Disk)
  {
    MakePlan(w, d, Single(c)).Publish? && Start(w, Single(c), d, MakePlan(w, d, Single(c)).tx)
  }

  /** Each of them is accepted in its turn. */
  ghost predicate EachAccepted(w: World, d: Disk, cs: seq<Candidate>)
    decreases |cs|
  {
    cs != [] ==>
      && EachAccepted(w, d, cs[..|cs| - 1])
      && Startable(w, cs[|cs| - 1], OneByOne(w, d, cs[..|cs| - 1]))
  }

  function FilesOf(cs: seq<Candidate>): (files: Files)
  {
    if cs == [] then map[] else FilesOf(cs[..|cs| - 1])[cs[|cs| - 1].artifactPath := cs[|cs| - 1].contents]
  }

  /** The tree with these candidates' entries appended and their files in place. */
  function After(w: World, d: Disk, cs: seq<Candidate>): (r: Disk)
  {
    Disk(Catalog(d.catalog.schemas + Entries(w, cs), d.catalog.upcasters), d.files + FilesOf(cs), None)
  }

  lemma SingleRun(w: World, c: Candidate, e: Disk)
    requires Startable(w, c, e)
    ensures Finish(w, Single(c), Attempt(e)).disk
         == Disk(Catalog(e.catalog.schemas + [EntryOf(w, c)], e.catalog.upcasters),
                 e.files[c.artifactPath := c.contents], None)
  {
    hide Finish, RegistryOK, CollisionFree, PlanSingle;
    var tx := MakePlan(w, e, Single(c)).tx;
    assert AdmissibleAttempts(w, Single(c), e, []);
    RetriesConverge(w, Single(c), e, tx, []);
    SingleShape(w, e, c);
    assert Contents(tx.artifacts) == map[c.artifactPath := c.contents] by {
      assert tx.artifacts[..0] == [];
    }
  }

  lemma {:induction false} OneByOneGives(w: World, d: Disk, cs: seq<Candidate>)
    requires d.marker.None? && EachAccepted(w, d, cs)
    ensures OneByOne(w, d, cs) == After(w, d, cs)
    decreases |cs|
  {
    hide Startable, Finish;
    if cs == [] {
      assert d.catalog.schemas + Entries(w, []) == d.catalog.schemas;
      assert d.files + map[] == d.files;
    } else {
      var n := |cs| - 1;
      var c := cs[n];
      var e := OneByOne(w, d, cs[..n]);
      OneByOneGives(w, d, cs[..n]);
      SingleRun(w, c, e);
      assert Entries(w, cs) == Entries(w, cs[..n]) + [EntryOf(w, c)];
      assert d.files + FilesOf(cs) == (d.files + FilesOf(cs[..n]))[c.artifactPath := c.contents];
    }
  }

  lemma {:induction false} FilesOfAt(cs: seq<Candidate>, c: Candidate)
    requires c in cs && forall x, y | x in cs && y in cs && x.artifactPath == y.artifactPath :: x == y
    ensures c.artifactPath in FilesOf(cs) && FilesOf(cs)[c.artifactPath] == c.contents
  {
    var n := |cs| - 1;
    assert cs == cs[..n] + [cs[n]];
    if c != cs[n] {
      FilesOfAt(cs[..n], c);
    }
  }

  lemma {:induction false} FilesOfKeys(cs: seq<Candidate>)
    ensures FilesOf(cs).Keys == CandidatePaths(cs)
  {
    if cs != [] {
      var n := |cs| - 1;
      FilesOfKeys(cs[..n]);
      assert cs == cs[..n] + [cs[n]];
    }
  }

  lemma ArtifactOf(cs: seq<Candidate>, c: Candidate)
    requires UniqueInputs(cs) && c in cs
    ensures var artifacts := SortBy(BundleArtifacts(SortBy(cs, CandidateKey)), PathKey);
            c.artifactPath in Contents(artifacts) && Contents(artifacts)[c.artifactPath] == c.contents
  {
    hide UniqueInputs;
    var sorted := SortBy(cs, CandidateKey);
    var artifacts := SortBy(BundleArtifacts(sorted), PathKey);
    BundleDistinct(cs);
    SortedArtifacts(BundleArtifacts(sorted));
    SortByMember(cs, CandidateKey, c);
    var i :| 0 <= i < |sorted| && sorted[i] == c;
    var a := SchemaArtifact(c, "json-schema");
    assert BundleArtifacts(sorted)[i] == a;
    SortByMember(BundleArtifacts(sorted), PathKey, a);
    ContentsAt(artifacts, a);
  }

  lemma ArtifactKeys(cs: seq<Candidate>)
    requires UniqueInputs(cs)
    ensures Contents(SortBy(BundleArtifacts(SortBy(cs, CandidateKey)), PathKey)).Keys == CandidatePaths(cs)
  {
    hide UniqueInputs, SortBy, Contents;
    BundleDistinct(cs);
    SortedArtifacts(BundleArtifacts(SortBy(cs, CandidateKey)));
    BundleArtifactPaths(cs);
  }

  lemma OverlaysAgree(low: Files, a: Files, b: Files)
    requires b.Keys <= a.Keys
    requires forall p | p in a :: if p in b then a[p] == b[p] else p in low && low[p] == a[p]
    ensures low + a == low + b
  {
  }

  lemma FileAt(w: World, d: Disk, cs: seq<Candidate>, c: Candidate)
    requires UniqueInputs(cs) && BundleItemsOK(w, d, cs) && c in cs
    ensures var artifacts := SortBy(BundleArtifacts(SortBy(cs, CandidateKey)), PathKey);
            var added := Fresh(d.catalog, SortBy(cs, CandidateKey));
            var p := c.artifactPath;
            && p in Contents(artifacts)
            && (if p in FilesOf(added) then Contents(artifacts)[p] == FilesOf(added)[p]
                else p in d.files && d.files[p] == Contents(artifacts)[p])
  {
    var added := Fresh(d.catalog, SortBy(cs, CandidateKey));
    UniqueMeans(cs);
    hide UniqueInputs, Contents, SortBy, Fresh, Published, FilesOf, BundleItemsOK;
    FilesOfKeys(added);
    ArtifactOf(cs, c);
    forall x | x in added
      ensures x in cs
    {
      AddedOrPublished(w, d, cs, x);
    }
    if c in added {
      FilesOfAt(added, c);
    } else {
      PublishedOnDisk(w, d, cs, c);
      assert forall x | x in added :: x.artifactPath != c.artifactPath;
    }
  }

  /** Writing every candidate of the bundle or only the new ones gives the same files. */
  lemma SameFiles(w: World, d: Disk, cs: seq<Candidate>)
    requires UniqueInputs(cs) && BundleItemsOK(w, d, cs)
    ensures var artifacts := SortBy(BundleArtifacts(SortBy(cs, CandidateKey)), PathKey);
            d.files + Contents(artifacts) == d.files + FilesOf(Fresh(d.catalog, SortBy(cs, CandidateKey)))
  {
    hide UniqueInputs, Contents, SortBy, Fresh, FilesOf, BundleItemsOK;
    var added := Fresh(d.catalog, SortBy(cs, CandidateKey));
    var artifacts := SortBy(BundleArtifacts(SortBy(cs, CandidateKey)), PathKey);
    ArtifactKeys(cs);
    FilesOfKeys(added);
    AddedPaths(w, d, cs);
    forall p | p in Contents(artifacts)
      ensures if p in FilesOf(added) then Contents(artifacts)[p] == FilesOf(added)[p]
              else p in d.files && d.files[p] == Contents(artifacts)[p]
    {
      var c :| c in cs && c.artifactPath == p;
      FileAt(w, d, cs, c);
    }
    OverlaysAgree(d.files, Contents(artifacts), FilesOf(added));
  }

  lemma PublishedOnDisk(w: World, d: Disk, cs: seq<Candidate>, c: Candidate)
    requires BundleItemsOK(w, d, cs) && c in cs && c !in Fresh(d.catalog, SortBy(cs, CandidateKey))
    ensures c.artifactPath in d.files && d.files[c.artifactPath] == c.contents
  {
    hide SortBy, Fresh;
    AddedOrPublished(w, d, cs, c);
    var i :| 0 <= i < |cs| && cs[i] == c;
    assert BundleItemOK(w, d, cs[i]);
  }

  /** An undisturbed bundle leaves the new entries appended in sorted key order and every new file. */
  lemma BundleLeaves(w: World, d: Disk, cs: seq<Candidate>, tx: Tx)
    requires Start(w, Bundle(cs), d, tx)
    ensures Finish(w, Bundle(cs), Attempt(d)).disk == After(w, d, Fresh(d.catalog, SortBy(cs, CandidateKey)))
  {
    hide Finish, RegistryOK, CollisionFree, PlanBundle, SortBy, Fresh, UniqueInputs, BundleItemsOK, Contents, FilesOf;
    assert AdmissibleAttempts(w, Bundle(cs), d, []);
    RetriesConverge(w, Bundle(cs), d, tx, []);
    BundleFacts(w, d, cs, tx);
    SameFiles(w, d, cs);
  }

  /** A second, undisturbed run of any registration reports it unchanged and touches nothing. */
  lemma SecondRunIsUnchanged(w: World, request: Request, e: Disk, tx: Tx)
    requires Start(w, request, e, tx)
    ensures var once := Finish(w, request, Attempt(e)).disk;
            Finish(w, request, Attempt(once)) == State(once, Ended(Unchanged))
  {
    hide MakePlan, RegistryOK, CollisionFree, Finish, Next, TxFits, InFlight;
    assert AdmissibleAttempts(w, request, e, []);
    RetriesConverge(w, request, e, tx, []);
    StartFits(w, request, e, tx);
    PlanReplays(w, e, request, tx);
    var once := PublishedDisk(e, tx);
    OpeningDispatch(w, request, once, Ok);
    FinishStep(w, request, State(once, Recovering));
    FinishStep(w, request, State(once, Preparing));
    FinishStep(w, request, State(once, Ended(Unchanged)));
  }
}
