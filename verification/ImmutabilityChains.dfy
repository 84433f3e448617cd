/** Chains of passing immutability checks. */
module ImmutabilityChains {
  import opened Catalogs
  import opened Immutability

  lemma SchemaKeptComposes(w: World, a: Tree, b: Tree, c: Tree, e: SchemaEntry)
    requires SchemaKept(w, a, b, e) && SchemaKept(w, b, c, e)
    ensures SchemaKept(w, a, c, e)
    ensures Differs(a, c, e) <==> Differs(a, b, e) || Differs(b, c, e)
    ensures !(Differs(a, b, e) && Differs(b, c, e))
  {
  }

  lemma EntryPasses(w: World, a: Tree, b: Tree, e: SchemaEntry)
    requires Passes(w, a, b) && e in a.catalog.schemas
    ensures SchemaKept(w, a, b, e) && e in b.catalog.schemas
  {
  }

  /** Two passing checks in a row: the check across both passes. */
  lemma ChecksCompose(w: World, a: Tree, b: Tree, c: Tree)
    requires Passes(w, a, b) && Passes(w, b, c)
    ensures Passes(w, a, c)
  {
  }

  /** The repairs add up: those of the first step, and those of the second that concern the start's versions. */
  lemma RepairsCompose(w: World, a: Tree, b: Tree, c: Tree)
    requires Passes(w, a, b) && Passes(w, b, c)
    ensures Repaired(a, c) == Repaired(a, b) + Repaired(b, c) * VersionIds(a.catalog)
    ensures Repaired(a, b) !! Repaired(b, c)
  {
  }

  // ---------------------------------------------------------------- chains

  ghost predicate Chain(w: World, trees: seq<Tree>)
  {
    forall i | 0 <= i < |trees| - 1 :: Passes(w, trees[i], trees[i + 1])
  }

  /** Along a chain, the first tree's catalog facts survive to every later tree. */
  lemma {:induction false} ChainPasses(w: World, trees: seq<Tree>, i: nat, j: nat)
    requires Chain(w, trees) && i < j < |trees|
    ensures Passes(w, trees[i], trees[j])
    decreases j
  {
    hide Passes;
    if j > i + 1 {
      ChainPasses(w, trees, i, j - 1);
      assert Passes(w, trees[j - 1], trees[j - 1 + 1]);
      ChecksCompose(w, trees[i], trees[j - 1], trees[j]);
    } else {
      assert Passes(w, trees[i], trees[i + 1]);
    }
  }

  /**
   * Along any chain of passing checks each schema's bytes change at most once; after a change they
   * meet the pin, and they met it nowhere before.
   */
  lemma BytesChangeAtMostOnce(w: World, trees: seq<Tree>, e: SchemaEntry, i: nat, j: nat, k: nat)
    requires Chain(w, trees) && i < j < k < |trees| && e in trees[i].catalog.schemas
    ensures e in trees[j].catalog.schemas && e in trees[k].catalog.schemas
    ensures Differs(trees[i], trees[j], e) ==>
              && w.sha(trees[i].blobs[e.artifactPath]) != e.ref.sha256
              && w.sha(trees[j].blobs[e.artifactPath]) == e.ref.sha256
              && !Differs(trees[j], trees[k], e)
              && e.artifactPath in trees[k].blobs
              && trees[k].blobs[e.artifactPath] == trees[j].blobs[e.artifactPath]
  {
    hide Passes, Chain;
    ChainPasses(w, trees, i, j);
    ChainPasses(w, trees, j, k);
    EntryPasses(w, trees[i], trees[j], e);
    EntryPasses(w, trees[j], trees[k], e);
    SchemaKeptComposes(w, trees[i], trees[j], trees[k], e);
  }

  ghost function AddedSchemas(a: Tree, b: Tree): int { |b.catalog.schemas| - |a.catalog.schemas| }

  ghost function AddedUpcasters(a: Tree, b: Tree): int { |b.catalog.upcasters| - |a.catalog.upcasters| }

  ghost function SumAdded(trees: seq<Tree>): (r: (int, int))
  {
    if |trees| < 2 then (0, 0)
    else
      var n := |trees|;
      var before := SumAdded(trees[..n - 1]);
      (before.0 + AddedSchemas(trees[n - 2], trees[n - 1]), before.1 + AddedUpcasters(trees[n - 2], trees[n - 1]))
  }

  /** The added counts reported along a chain sum to the counts reported across it. */
  lemma {:induction false} AddedCountsSum(w: World, trees: seq<Tree>)
    requires Chain(w, trees) && |trees| >= 2
    ensures var last := trees[|trees| - 1];
            && SumAdded(trees) == (AddedSchemas(trees[0], last), AddedUpcasters(trees[0], last))
            && Passes(w, trees[0], last)
  {
    hide Passes;
    ChainPasses(w, trees, 0, |trees| - 1);
    var n := |trees|;
    if n > 2 {
      assert forall i | 0 <= i < n - 2 :: Passes(w, trees[i], trees[i + 1]);
      assert Chain(w, trees[..n - 1]);
      AddedCountsSum(w, trees[..n - 1]);
    } else {
      assert SumAdded(trees[..1]) == (0, 0);
    }
  }
}
