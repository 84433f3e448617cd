/** A bundle that is published although its schemas, one at a time, are not. */
module BundleWitness {
  import opened Text
  import opened Ordering
  import opened Catalogs
  import opened Registry
  import opened Planning
  import opened Transactions
  import opened Publication
  import opened Convergence
  import opened BundleSequence
  import opened BundleSteps
  import opened ExampleWorlds
  import opened ExampleTrees

  predicate Holds(c: Catalog, name: char)
  {
    exists i | 0 <= i < |c.schemas| :: c.schemas[i].artifactPath == PathOf(name)
  }

  /** Documents in which schema b refers to schema c: b is refused while c is not catalogued. */
  predicate RefersForward(c: Catalog, files: Files) { Holds(c, 'b') ==> Holds(c, 'c') }

  function Referring(): World { Example(RefersForward) }

  function OnlyA(): Disk { Disk(PlainCatalog(Referring(), "a"), PlainFiles("a", map[]), None) }

  lemma HoldsNames(w: World, names: string, name: char)
    requires Names(names)
    ensures Holds(PlainCatalog(w, names), name) <==> name in names
  {
    hide PathOf;
    var c := PlainCatalog(w, names);
    forall i | 0 <= i < |names|
      ensures c.schemas[i].artifactPath == PathOf(name) <==> names[i] == name
    {
      PathsDiffer(names[i], name);
    }
    if name in names {
      var i :| 0 <= i < |names| && names[i] == name;
      assert c.schemas[i].artifactPath == PathOf(name);
    }
  }

  /** The bundle of b and c starts on the tree of a. */
  lemma ReferringBundleStarts()
    ensures Start(Referring(), Bundle(Candidates("bc")), OnlyA(), LettersTx(Referring(), OnlyA().catalog, "a", "bc"))
  {
    var w, d := Referring(), OnlyA();
    hide PlainCatalog, PlainFiles, Candidates, RegistryOK, Admits, MakePlan, LettersTx, CollisionFree, Holds;
    ExampleIsCollisionFree(RefersForward);
    assert "a" + "bc" == "abc";
    HoldsNames(w, "a", 'b');
    HoldsNames(w, "abc", 'c');
    assert 'c' in "abc" by { assert "abc"[2] == 'c'; }
    PlainTreeOK(RefersForward, "a", map[]);
    LettersPlan(RefersForward, "a", "bc", map[], d);
  }

  /**
   * Registering b and then c, each on its own, does not leave what the bundle leaves: b alone is
   * refused, because it refers to a schema that is not there yet.
   */
  lemma BundleIsMoreThanItsSchemas()
    ensures var w, d := Referring(), OnlyA();
            && Start(w, Bundle(Candidates("bc")), d, LettersTx(w, d.catalog, "a", "bc"))
            && Finish(w, Bundle(Candidates("bc")), Attempt(d)).disk
               != OneByOne(w, d, Fresh(d.catalog, SortBy(Candidates("bc"), CandidateKey)))
  {
    var w, d := Referring(), OnlyA();
    hide PlainCatalog, PlainFiles, RegistryOK, Admits, MakePlan, LettersTx, CollisionFree, Holds, Start, Finish,
         OneByOne, SortBy, Fresh, After;
    ReferringBundleStarts();
    BundleEqualsSequence(w, d, Candidates("bc"), LettersTx(w, d.catalog, "a", "bc"));
    assert "a" + "bc" == "abc" && "a" + "b" == "ab";
    LettersTarget(w, "a", "bc", map[], d);
    assert Candidates("bc")[..1] == Candidates("b");
    PlainAfter(w, "a", "b", map[], d);
    HoldsNames(w, "ab", 'b');
    HoldsNames(w, "ab", 'c');
    assert 'b' in "ab" by { assert "ab"[1] == 'b'; }
  }
}
