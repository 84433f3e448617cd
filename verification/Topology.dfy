/** The output-path topology check of the endpoint profile renderer, against sets of paths. */
module Topology {
  /** An absolute normalised path as its components; "/" is the empty sequence. */
  type Place = seq<string>

  // ---------------------------------------------------------------- the source's predicates

  /** `PurePosixPath(p).parents`: the proper prefixes. */
  predicate IsParent(parent: Place, p: Place) { |parent| < |p| && p[..|parent|] == parent }

  /** `_is_within`. */
  predicate IsWithin(p: Place, roots: seq<Place>)
  {
    exists i | 0 <= i < |roots| :: p == roots[i] || IsParent(roots[i], p)
  }

  /** `_strictly_within`. */
  predicate StrictlyWithin(p: Place, root: Place) { p != root && IsParent(root, p) }

  /** `_paths_overlap`. */
  predicate Overlap(a: Place, b: Place) { a == b || IsParent(a, b) || IsParent(b, a) }

  datatype BoundPaths = BoundPaths(
    providerStateRoot: Place, cacheBaseRoot: Place, stateDir: Place,
    codecCacheManifest: Place, providerPrewarmReport: Place, generationTelemetry: Place, warmupReport: Place,
    qualifiedModelDir: Place, qualifiedProviderManifest: Place, checkpointManifest: Place, warmupPrompt: Place)

  function OutputRoots(b: BoundPaths): seq<Place> { [b.providerStateRoot, b.cacheBaseRoot, b.stateDir] }

  function OutputFiles(b: BoundPaths): seq<Place>
  {
    [b.codecCacheManifest, b.providerPrewarmReport, b.generationTelemetry, b.warmupReport]
  }

  /** The root each output file must be strictly beneath. */
  function RequiredParents(b: BoundPaths): seq<Place>
  {
    [b.providerStateRoot, b.providerStateRoot, b.stateDir, b.stateDir]
  }

  function InputRoots(b: BoundPaths, durable: seq<Place>): seq<Place> { [b.qualifiedModelDir] + durable }

  function InputFiles(b: BoundPaths, videos: seq<Place>): seq<Place>
  {
    [b.qualifiedProviderManifest, b.checkpointManifest, b.warmupPrompt] + videos
  }

  // ---------------------------------------------------------------- sets of paths

  /** `q` lies at or beneath `root`. */
  predicate Beneath(q: Place, root: Place) { root <= q }

  /** No path lies beneath both. */
  ghost predicate Apart(a: Place, b: Place) { !exists q :: Beneath(q, a) && Beneath(q, b) }

  /** No path lies beneath `output` and within or above `input`. */
  ghost predicate Untouched(output: Place, input: Place)
  {
    !exists q :: Beneath(q, output) && (Beneath(q, input) || Beneath(input, q))
  }

  ghost predicate PairwiseApart(paths: seq<Place>)
  {
    forall i, j | 0 <= i < j < |paths| :: Apart(paths[i], paths[j])
  }

  ghost predicate AllUntouched(outputs: seq<Place>, inputs: seq<Place>)
  {
    forall i, j | 0 <= i < |outputs| && 0 <= j < |inputs| :: Untouched(outputs[i], inputs[j])
  }

  /** Every file of the renderer's table lies strictly beneath the root of its table. */
  ghost predicate FilesPlaced(b: BoundPaths)
  {
    forall i | 0 <= i < 4 ::
      Beneath(OutputFiles(b)[i], RequiredParents(b)[i]) && OutputFiles(b)[i] != RequiredParents(b)[i]
  }

  ghost predicate StrictlyBeneath(p: Place, root: Place) { Beneath(p, root) && p != root }

  /** Nothing beneath the output root lies within or above any input. */
  ghost predicate SparesInputs(output: Place, b: BoundPaths, durable: seq<Place>, videos: seq<Place>)
  {
    && Untouched(output, b.qualifiedModelDir)
    && Untouched(output, b.qualifiedProviderManifest)
    && Untouched(output, b.checkpointManifest)
    && Untouched(output, b.warmupPrompt)
    && (forall root | root in durable :: Untouched(output, root))
    && (forall video | video in videos :: Untouched(output, video))
  }

  /** What the topology check is for, path by named path; file-versus-input pairs are not mentioned. */
  ghost predicate Separated(b: BoundPaths, durable: seq<Place>, videos: seq<Place>)
  {
    && StrictlyBeneath(b.codecCacheManifest, b.providerStateRoot)
    && StrictlyBeneath(b.providerPrewarmReport, b.providerStateRoot)
    && StrictlyBeneath(b.generationTelemetry, b.stateDir)
    && StrictlyBeneath(b.warmupReport, b.stateDir)
    && Apart(b.providerStateRoot, b.cacheBaseRoot)
    && Apart(b.providerStateRoot, b.stateDir)
    && Apart(b.cacheBaseRoot, b.stateDir)
    && Apart(b.codecCacheManifest, b.providerPrewarmReport)
    && Apart(b.codecCacheManifest, b.generationTelemetry)
    && Apart(b.codecCacheManifest, b.warmupReport)
    && Apart(b.providerPrewarmReport, b.generationTelemetry)
    && Apart(b.providerPrewarmReport, b.warmupReport)
    && Apart(b.generationTelemetry, b.warmupReport)
    && SparesInputs(b.providerStateRoot, b, durable, videos)
    && SparesInputs(b.cacheBaseRoot, b, durable, videos)
    && SparesInputs(b.stateDir, b, durable, videos)
  }

  /** The same over the renderer's tables of roots, files and protected inputs. */
  ghost predicate TablesSeparated(b: BoundPaths, durable: seq<Place>, videos: seq<Place>)
  {
    && FilesPlaced(b)
    && PairwiseApart(OutputRoots(b))
    && PairwiseApart(OutputFiles(b))
    && AllUntouched(OutputRoots(b), InputRoots(b, durable) + InputFiles(b, videos))
  }

  lemma FilesPlacedMeans(b: BoundPaths)
    ensures FilesPlaced(b) <==>
              && StrictlyBeneath(b.codecCacheManifest, b.providerStateRoot)
              && StrictlyBeneath(b.providerPrewarmReport, b.providerStateRoot)
              && StrictlyBeneath(b.generationTelemetry, b.stateDir)
              && StrictlyBeneath(b.warmupReport, b.stateDir)
  {
    hide Beneath;
    var files, parents := OutputFiles(b), RequiredParents(b);
    if FilesPlaced(b) {
      assert Beneath(files[0], parents[0]) && Beneath(files[1], parents[1]);
      assert Beneath(files[2], parents[2]) && Beneath(files[3], parents[3]);
    }
  }

  lemma RootsApartMeans(b: BoundPaths)
    ensures PairwiseApart(OutputRoots(b)) <==>
              && Apart(b.providerStateRoot, b.cacheBaseRoot)
              && Apart(b.providerStateRoot, b.stateDir)
              && Apart(b.cacheBaseRoot, b.stateDir)
  {
    hide Apart;
    var roots := OutputRoots(b);
    assert PairwiseApart(roots) ==>
             Apart(roots[0], roots[1]) && Apart(roots[0], roots[2]) && Apart(roots[1], roots[2]);
  }

  lemma FilesApartMeans(b: BoundPaths)
    ensures PairwiseApart(OutputFiles(b)) <==>
              && Apart(b.codecCacheManifest, b.providerPrewarmReport)
              && Apart(b.codecCacheManifest, b.generationTelemetry)
              && Apart(b.codecCacheManifest, b.warmupReport)
              && Apart(b.providerPrewarmReport, b.generationTelemetry)
              && Apart(b.providerPrewarmReport, b.warmupReport)
              && Apart(b.generationTelemetry, b.warmupReport)
  {
    hide Apart;
    var files := OutputFiles(b);
    assert PairwiseApart(files) ==>
             && Apart(files[0], files[1]) && Apart(files[0], files[2]) && Apart(files[0], files[3])
             && Apart(files[1], files[2]) && Apart(files[1], files[3]) && Apart(files[2], files[3]);
  }

  lemma InputTable(b: BoundPaths, durable: seq<Place>, videos: seq<Place>, p: Place)
    ensures p in InputRoots(b, durable) + InputFiles(b, videos) <==>
              || p in {b.qualifiedModelDir, b.qualifiedProviderManifest, b.checkpointManifest, b.warmupPrompt}
              || p in durable || p in videos
  {
    var files := [b.qualifiedProviderManifest, b.checkpointManifest, b.warmupPrompt];
    assert files[0] in files && files[1] in files && files[2] in files;
    assert InputRoots(b, durable)[0] in InputRoots(b, durable);
  }

  lemma SparesMeans(output: Place, b: BoundPaths, durable: seq<Place>, videos: seq<Place>)
    ensures SparesInputs(output, b, durable, videos) <==>
              forall p | p in InputRoots(b, durable) + InputFiles(b, videos) :: Untouched(output, p)
  {
    hide Untouched, InputRoots, InputFiles;
    forall p: Place
      ensures p in InputRoots(b, durable) + InputFiles(b, videos) <==>
                || p in {b.qualifiedModelDir, b.qualifiedProviderManifest, b.checkpointManifest, b.warmupPrompt}
                || p in durable || p in videos
    {
      InputTable(b, durable, videos, p);
    }
  }

  lemma UntouchedMeans(outputs: seq<Place>, inputs: seq<Place>)
    ensures AllUntouched(outputs, inputs) <==>
              forall i | 0 <= i < |outputs| :: forall p | p in inputs :: Untouched(outputs[i], p)
  {
    hide Untouched;
    if AllUntouched(outputs, inputs) {
      forall i, p | 0 <= i < |outputs| && p in inputs
        ensures Untouched(outputs[i], p)
      {
        var j :| 0 <= j < |inputs| && inputs[j] == p;
      }
    }
  }

  /** The tables say what the named paths say. */
  lemma TablesMean(b: BoundPaths, durable: seq<Place>, videos: seq<Place>)
    ensures TablesSeparated(b, durable, videos) <==> Separated(b, durable, videos)
  {
    hide Untouched, Apart, Beneath, FilesPlaced, PairwiseApart, AllUntouched, OutputFiles, InputRoots, InputFiles;
    FilesPlacedMeans(b);
    RootsApartMeans(b);
    FilesApartMeans(b);
    SparesMeans(b.providerStateRoot, b, durable, videos);
    SparesMeans(b.cacheBaseRoot, b, durable, videos);
    SparesMeans(b.stateDir, b, durable, videos);
    hide SparesInputs, StrictlyBeneath;
    var roots, inputs := OutputRoots(b), InputRoots(b, durable) + InputFiles(b, videos);
    UntouchedMeans(roots, inputs);
    assert roots[0] == b.providerStateRoot && roots[1] == b.cacheBaseRoot && roots[2] == b.stateDir;
  }

  lemma PrefixesComparable(a: Place, b: Place, q: Place)
    requires a <= q && b <= q
    ensures a <= b || b <= a
  {
  }

  lemma OverlapIsPrefix(a: Place, b: Place)
    ensures Overlap(a, b) <==> a <= b || b <= a
  {
  }

  /** The check's pairwise test says exactly that the two subtrees share no path. */
  lemma OverlapMeansSharedPath(a: Place, b: Place)
    ensures Overlap(a, b) <==> !Apart(a, b)
  {
    OverlapIsPrefix(a, b);
    if a <= b {
      assert Beneath(b, a) && Beneath(b, b);
    }
    if b <= a {
      assert Beneath(a, a) && Beneath(a, b);
    }
    if !Apart(a, b) {
      var q :| Beneath(q, a) && Beneath(q, b);
      PrefixesComparable(a, b, q);
    }
  }

  /** It also excludes the ancestors of an input from an output root's subtree. */
  lemma OverlapMeansTouched(output: Place, input: Place)
    ensures Overlap(output, input) <==> !Untouched(output, input)
  {
    OverlapIsPrefix(output, input);
    if output <= input {
      assert Beneath(input, output) && Beneath(input, input);
    }
    if input <= output {
      assert Beneath(output, output) && Beneath(output, input);
    }
    if !Untouched(output, input) {
      var q :| Beneath(q, output) && (Beneath(q, input) || Beneath(input, q));
      if Beneath(q, input) {
        PrefixesComparable(output, input, q);
      } else {
        assert output <= q <= input;
      }
    }
  }

  // ---------------------------------------------------------------- the loops

  /** `_require_pairwise_path_disjoint`. */
  method PairwiseDisjoint(paths: seq<Place>) returns (ok: bool)
    ensures ok <==> PairwiseApart(paths)
  {
    for i := 0 to |paths|
      invariant forall k, l | 0 <= k < i && k < l < |paths| :: Apart(paths[k], paths[l])
    {
      for j := i + 1 to |paths|
        invariant forall l | i < l < j :: Apart(paths[i], paths[l])
      {
        OverlapMeansSharedPath(paths[i], paths[j]);
        if Overlap(paths[i], paths[j]) {
          return false;
        }
      }
    }
    return true;
  }

  /** One pair of loops over outputs and protected inputs. */
  method Disjoint(outputs: seq<Place>, inputs: seq<Place>) returns (ok: bool)
    ensures ok <==> AllUntouched(outputs, inputs)
  {
    for i := 0 to |outputs|
      invariant forall k, l | 0 <= k < i && 0 <= l < |inputs| :: Untouched(outputs[k], inputs[l])
    {
      for j := 0 to |inputs|
        invariant forall l | 0 <= l < j :: Untouched(outputs[i], inputs[l])
      {
        OverlapMeansTouched(outputs[i], inputs[j]);
        if Overlap(outputs[i], inputs[j]) {
          return false;
        }
      }
    }
    return true;
  }

  lemma StrictlyWithinMeans(p: Place, root: Place)
    ensures StrictlyWithin(p, root) <==> Beneath(p, root) && p != root
  {
  }

  /** A file beneath an untouched root touches nothing either. */
  lemma FileFollowsRoot(file: Place, root: Place, input: Place)
    requires Beneath(file, root) && Untouched(root, input)
    ensures Untouched(file, input)
  {
  }

  lemma ParentIsRoot(b: BoundPaths, i: nat)
    requires i < 4
    ensures exists r :: 0 <= r < 3 && OutputRoots(b)[r] == RequiredParents(b)[i]
  {
    assert OutputRoots(b)[0] == b.providerStateRoot && OutputRoots(b)[2] == b.stateDir;
  }

  /** The separate file-versus-input loops follow from the containment and the root checks. */
  lemma FileLoopsAreRedundant(b: BoundPaths, inputs: seq<Place>)
    requires FilesPlaced(b) && AllUntouched(OutputRoots(b), inputs)
    ensures AllUntouched(OutputFiles(b), inputs)
  {
    hide Untouched;
    forall i, j | 0 <= i < 4 && 0 <= j < |inputs|
      ensures Untouched(OutputFiles(b)[i], inputs[j])
    {
      ParentIsRoot(b, i);
      var r :| 0 <= r < 3 && OutputRoots(b)[r] == RequiredParents(b)[i];
      assert Untouched(OutputRoots(b)[r], inputs[j]);
      FileFollowsRoot(OutputFiles(b)[i], RequiredParents(b)[i], inputs[j]);
    }
  }

  lemma UntouchedAppend(outputs: seq<Place>, a: seq<Place>, b: seq<Place>)
    ensures AllUntouched(outputs, a + b) <==> AllUntouched(outputs, a) && AllUntouched(outputs, b)
  {
    hide Untouched;
    if AllUntouched(outputs, a + b) {
      assert forall j | 0 <= j < |a| :: (a + b)[j] == a[j];
      assert forall j | 0 <= j < |b| :: (a + b)[|a| + j] == b[j];
    }
  }

  /** `_validate_output_path_topology` accepts exactly the separated layouts. */
  method ValidateOutputTopology(b: BoundPaths, durable: seq<Place>, videos: seq<Place>) returns (ok: bool)
    ensures ok <==> Separated(b, durable, videos)
  {
    hide AllUntouched, PairwiseApart, OutputFiles, OutputRoots, RequiredParents, Separated;
    TablesMean(b, durable, videos);
    FourFiles(b);
    var files, parents := OutputFiles(b), RequiredParents(b);
    for i := 0 to 4
      invariant forall k | 0 <= k < i :: Beneath(files[k], parents[k]) && files[k] != parents[k]
    {
      StrictlyWithinMeans(files[i], parents[i]);
      if !StrictlyWithin(files[i], parents[i]) {
        return false;
      }
    }
    assert FilesPlaced(b);
    ok := PairwiseDisjoint(OutputRoots(b));
    if !ok { return; }
    ok := PairwiseDisjoint(files);
    if !ok { return; }
    var inputRoots, inputFiles := InputRoots(b, durable), InputFiles(b, videos);
    UntouchedAppend(OutputRoots(b), inputRoots, inputFiles);
    if AllUntouched(OutputRoots(b), inputRoots + inputFiles) {
      FileLoopsAreRedundant(b, inputFiles);
      FileLoopsAreRedundant(b, inputRoots);
    }
    ok := Disjoint(files, inputFiles);
    if !ok { return; }
    ok := Disjoint(OutputRoots(b), inputRoots + inputFiles);
    if !ok { return; }
    ok := Disjoint(files, inputRoots);
  }

  lemma FourFiles(b: BoundPaths)
    ensures |OutputFiles(b)| == 4 && |RequiredParents(b)| == 4
  {
  }

  // ---------------------------------------------------------------- prewarm videos

  lemma WithinMeans(p: Place, roots: seq<Place>)
    ensures IsWithin(p, roots) <==> exists i :: 0 <= i < |roots| && Beneath(p, roots[i])
  {
  }

  lemma VideoFollowsRoot(output: Place, root: Place, video: Place)
    requires Beneath(video, root) && Untouched(output, root)
    ensures Untouched(output, video)
  {
  }

  /** Videos the renderer admits lie in durable input roots, so protecting the roots protects the videos. */
  lemma VideosAreProtectedByTheirRoots(outputs: seq<Place>, durable: seq<Place>, videos: seq<Place>)
    requires AllUntouched(outputs, durable) && forall v | v in videos :: IsWithin(v, durable)
    ensures AllUntouched(outputs, videos)
  {
    hide Untouched, IsWithin;
    forall i, j | 0 <= i < |outputs| && 0 <= j < |videos|
      ensures Untouched(outputs[i], videos[j])
    {
      WithinMeans(videos[j], durable);
      var k :| 0 <= k < |durable| && Beneath(videos[j], durable[k]);
      VideoFollowsRoot(outputs[i], durable[k], videos[j]);
    }
  }
}
