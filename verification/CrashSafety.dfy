/** What every intermediate tree of a publication looks like, and why each one is a valid registry. */
module CrashSafety {
  import opened Text
  import opened Catalogs
  import opened Registry
  import opened Planning
  import opened Transactions

  ghost predicate Between(low: Files, files: Files, high: Files)
  {
    && (forall p | p in low :: p in files && files[p] == low[p])
    && (forall p | p in files :: p in high && files[p] == high[p])
  }

  ghost predicate Unpublished(e: Disk, tx: Tx)
  {
    HasUnpublished(e, tx.artifacts, CatalogPaths(e.catalog))
  }

  /** The transaction's own marker can only be written where no other transaction is pending. */
  ghost predicate EntryMarked(e: Disk, tx: Tx)
  {
    e.marker.None? || e.marker == Some(tx.marker)
  }

  /** The trees a publication of `tx` started on `e` can leave behind, wherever it stops. */
  ghost predicate InFlight(e: Disk, tx: Tx, d: Disk)
  {
    || (d.catalog == tx.original && Between(e.files, d.files, FullFiles(e.files, tx)) &&
        d.marker == Some(tx.marker) && EntryMarked(e, tx))
    || d == e
    || (d == Disk(tx.original, e.files, None) && !Unpublished(e, tx))
    || (d.catalog == tx.target && d.files == FullFiles(e.files, tx) && EntryMarked(e, tx) &&
        (d.marker == Some(tx.marker) || d.marker.None?))
  }

  // ---------------------------------------------------------------- files

  lemma {:induction false} ContentsOfArtifacts(tx: Tx, p: Path)
    requires DistinctPaths(tx.artifacts) && p in ArtifactPaths(tx.artifacts)
    ensures exists a :: a in tx.artifacts && a.path == p && Contents(tx.artifacts)[p] == a.contents
  {
    var a :| a in tx.artifacts && a.path == p;
    ContentsAt(tx.artifacts, a);
  }

  /** Installing never changes a file that was already there. */
  lemma FullKeepsEntry(w: World, e: Disk, tx: Tx)
    requires DistinctPaths(tx.artifacts) && Compatible(e.files, tx.artifacts)
    ensures Between(e.files, FullFiles(e.files, tx), FullFiles(e.files, tx))
  {
    forall p | p in e.files
      ensures FullFiles(e.files, tx)[p] == e.files[p]
    {
      if p in ArtifactPaths(tx.artifacts) {
        ContentsOfArtifacts(tx, p);
      }
    }
  }

  lemma MarkerNamesArtifacts(w: World, tx: Tx)
    requires MarkerMatches(w, tx)
    ensures MarkerPaths(tx.marker) == ArtifactPaths(tx.artifacts)
    ensures forall a | a in tx.artifacts :: Pin(a.path, w.sha(a.contents)) in MarkerPins(tx.marker)
  {
    var pins := ArtifactPins(w, tx.artifacts);
    forall a | a in tx.artifacts
      ensures Pin(a.path, w.sha(a.contents)) in pins
    {
      var i :| 0 <= i < |tx.artifacts| && tx.artifacts[i] == a;
      assert pins[i] == Pin(a.path, w.sha(a.contents));
    }
    forall p | p in pins
      ensures p.path in ArtifactPaths(tx.artifacts)
    {
      var i :| 0 <= i < |pins| && pins[i] == p;
      assert tx.artifacts[i].path == p.path;
    }
    forall p | p in ArtifactPaths(tx.artifacts)
      ensures p in PathsOf(pins)
    {
      var a :| a in tx.artifacts && a.path == p;
      assert Pin(a.path, w.sha(a.contents)) in pins;
    }
  }

  /** Wherever a marker pin's file is present in a tree below the full one, its digest is right. */
  lemma MarkerPinMatches(w: World, tx: Tx, files: Files, high: Files, p: Pin)
    requires DistinctPaths(tx.artifacts) && MarkerMatches(w, tx)
    requires p in MarkerPins(tx.marker) && p.path in files
    requires Between(map[], files, high)
    requires forall q | q in ArtifactPaths(tx.artifacts) :: q in high && high[q] == Contents(tx.artifacts)[q]
    ensures w.sha(files[p.path]) == p.sha
  {
    var pins := ArtifactPins(w, tx.artifacts);
    var i :| 0 <= i < |pins| && pins[i] == p;
    ContentsAt(tx.artifacts, tx.artifacts[i]);
  }

  // ---------------------------------------------------------------- registry validity

  lemma PartialMarkerOK(w: World, e: Disk, tx: Tx, d: Disk)
    requires DistinctPaths(tx.artifacts) && MarkerMatches(w, tx)
    requires d.catalog == tx.original && d.marker == Some(tx.marker)
    requires CatalogDigest(w, tx.original) != CatalogDigest(w, tx.target)
    requires Between(e.files, d.files, FullFiles(e.files, tx))
    ensures MarkerOK(w, d)
  {
    forall p | p in MarkerPins(tx.marker) && p.path in d.files
      ensures w.sha(d.files[p.path]) == p.sha
    {
      MarkerPinMatches(w, tx, d.files, FullFiles(e.files, tx), p);
    }
  }

  lemma PartialClosed(w: World, e: Disk, tx: Tx, d: Disk)
    requires MarkerMatches(w, tx)
    requires SchemaClosed(w, PublishedDisk(e, tx))
    requires SchemaPaths(tx.target) <= SchemaPaths(tx.original) + ArtifactPaths(tx.artifacts)
    requires d.catalog == tx.original && d.marker == Some(tx.marker)
    requires Between(e.files, d.files, FullFiles(e.files, tx))
    ensures SchemaClosed(w, d)
  {
    MarkerNamesArtifacts(w, tx);
    assert Pending(w, PublishedDisk(e, tx)) == {};
    forall p | p in d.files && IsScanned(p)
      ensures InVersionDirectory(p) && (p in SchemaPaths(tx.original) || p in Pending(w, d))
    {
      assert p in PublishedDisk(e, tx).files;
    }
  }

  /** The old catalog stays exactly pinned while artifacts come and go around it. */
  lemma OriginalStaysPinned(w: World, e: Disk, files: Files, high: Files)
    requires Pinned(w, e.catalog, e.files) && Accepted(w, e.catalog, e.files)
    requires Between(e.files, files, high)
    ensures Pinned(w, e.catalog, files) && Accepted(w, e.catalog, files)
  {
    PinnedPaths(w, e.catalog, e.files);
    SameOnCatalog(w, e.catalog, e.files, files);
  }

  lemma PartialTreeOK(w: World, e: Disk, tx: Tx, d: Disk)
    requires TxFits(w, e, tx)
    requires d.catalog == tx.original && d.marker == Some(tx.marker)
    requires Between(e.files, d.files, FullFiles(e.files, tx))
    ensures TreeOK(w, d)
  {
    OriginalStaysPinned(w, e, d.files, FullFiles(e.files, tx));
    PartialMarkerOK(w, e, tx, d);
    PartialClosed(w, e, tx, d);
  }

  lemma UnmarkedClosed(w: World, e: Disk, tx: Tx, d: Disk)
    requires SchemaClosed(w, PublishedDisk(e, tx))
    requires SchemaPaths(tx.target) <= SchemaPaths(tx.original) + ArtifactPaths(tx.artifacts)
    requires ScannedAreSchemas(tx.original) && e.catalog == tx.original
    requires d == Disk(tx.original, e.files, None) && !Unpublished(e, tx)
    ensures SchemaClosed(w, d)
  {
  }

  lemma UnmarkedTreeOK(w: World, e: Disk, tx: Tx, d: Disk)
    requires TxFits(w, e, tx)
    requires d == Disk(tx.original, e.files, None) && !Unpublished(e, tx)
    ensures TreeOK(w, d)
  {
    UnmarkedClosed(w, e, tx, d);
  }

  lemma CommittedMarkerOK(w: World, e: Disk, tx: Tx, d: Disk)
    requires DistinctPaths(tx.artifacts) && MarkerMatches(w, tx)
    requires d.catalog == tx.target && d.files == FullFiles(e.files, tx) && d.marker == Some(tx.marker)
    ensures MarkerOK(w, d)
  {
    MarkerNamesArtifacts(w, tx);
    forall p | p in MarkerPins(tx.marker)
      ensures p.path in d.files && w.sha(d.files[p.path]) == p.sha
    {
      assert p.path in MarkerPaths(tx.marker);
      MarkerPinMatches(w, tx, d.files, FullFiles(e.files, tx), p);
    }
  }

  lemma CommittedTreeOK(w: World, e: Disk, tx: Tx, d: Disk)
    requires TxFits(w, e, tx)
    requires d.catalog == tx.target && d.files == FullFiles(e.files, tx)
    requires d.marker == Some(tx.marker) || d.marker.None?
    ensures TreeOK(w, d)
  {
    QuiescentTreeOK(w, PublishedDisk(e, tx));
    hide FullFiles, CatalogOK, Pinned, Accepted, MarkerOK, SchemaClosed, ScannedAreSchemas, Recovered, Compatible,
         DistinctPaths;
    if d.marker.Some? {
      CommittedMarkerOK(w, e, tx, d);
      MoreMarkedStaysClosed(w, PublishedDisk(e, tx), d);
    }
  }

  /** A marker can only excuse more files from the closure scan. */
  lemma MoreMarkedStaysClosed(w: World, d: Disk, marked: Disk)
    requires SchemaClosed(w, d) && d.marker.None? && marked == d.(marker := marked.marker)
    ensures SchemaClosed(w, marked)
  {
    hide IsScanned, InVersionDirectory, SchemaPaths;
    assert Pending(w, d) == {};
  }

  /** Closure at every crash point: whatever step a publication stops at, the registry accepts the tree. */
  lemma InFlightTreeOK(w: World, e: Disk, tx: Tx, d: Disk)
    requires TxFits(w, e, tx) && InFlight(e, tx, d)
    ensures TreeOK(w, d)
  {
    if d.catalog == tx.original && d.marker == Some(tx.marker) && Between(e.files, d.files, FullFiles(e.files, tx)) {
      PartialTreeOK(w, e, tx, d);
    } else if d == Disk(tx.original, e.files, None) && !Unpublished(e, tx) {
      UnmarkedTreeOK(w, e, tx, d);
    } else if d != e {
      CommittedTreeOK(w, e, tx, d);
    }
  }

  // ---------------------------------------------------------------- orphan coverage

  /**
   * Another transaction's marker is on disk and none of this transaction's own artifacts is an
   * orphan: the rollback's marker decision, which looks only at its own artifacts, deletes it.
   */
  ghost predicate Hazard(e: Disk, tx: Tx)
  {
    e.marker.Some? && e.marker.value != tx.marker && !Unpublished(e, tx)
  }

  lemma OrphansAreArtifacts(w: World, e: Disk, tx: Tx, p: Path)
    requires MarkerMatches(w, tx) && Covered(w, e) && EntryMarked(e, tx) && IsOrphan(e, p)
    ensures p in ArtifactPaths(tx.artifacts)
  {
  }

  lemma CoveredByOwnMarker(w: World, e: Disk, tx: Tx, d: Disk)
    requires TxFits(w, e, tx) && Covered(w, e) && EntryMarked(e, tx)
    requires d.catalog == tx.original && d.marker == Some(tx.marker)
    requires Between(e.files, d.files, FullFiles(e.files, tx))
    ensures Covered(w, d)
  {
    MarkerNamesArtifacts(w, tx);
    forall p | IsOrphan(d, p)
      ensures Pin(p, w.sha(d.files[p])) in MarkerPins(tx.marker)
    {
      if p in e.files && p !in ArtifactPaths(tx.artifacts) {
        OrphansAreArtifacts(w, e, tx, p);
      }
      ContentsOfArtifacts(tx, p);
    }
  }

  lemma NoOrphansOnceCommitted(w: World, e: Disk, tx: Tx, d: Disk)
    requires TxFits(w, e, tx) && Covered(w, e) && EntryMarked(e, tx)
    requires d.catalog == tx.target && d.files == FullFiles(e.files, tx)
    ensures forall p :: !IsOrphan(d, p)
  {
    forall p | p in d.files
      ensures p in CatalogPaths(tx.target)
    {
      if p in e.files && p !in CatalogPaths(tx.original) {
        OrphansAreArtifacts(w, e, tx, p);
      }
    }
  }

  /** A recovered marker of this very transaction means one of its artifacts is an orphan. */
  lemma OwnMarkerMeansUnpublished(w: World, e: Disk, tx: Tx)
    requires MarkerMatches(w, tx) && Recovered(w, e) && e.marker == Some(tx.marker)
    ensures Unpublished(e, tx)
  {
  }

  /** Orphan coverage at every crash point, outside the hazard. */
  lemma InFlightCovered(w: World, e: Disk, tx: Tx, d: Disk)
    requires TxFits(w, e, tx) && InFlight(e, tx, d)
    requires Covered(w, e) && !Hazard(e, tx)
    ensures Covered(w, d)
  {
    if d == e {
    } else if d.catalog == tx.original && d.marker == Some(tx.marker) && EntryMarked(e, tx) {
      CoveredByOwnMarker(w, e, tx, d);
    } else if d == Disk(tx.original, e.files, None) && !Unpublished(e, tx) {
      if e.marker == Some(tx.marker) {
        OwnMarkerMeansUnpublished(w, e, tx);
      }
    } else {
      NoOrphansOnceCommitted(w, e, tx, d);
    }
  }
}
