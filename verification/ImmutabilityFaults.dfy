/** What the immutability check has to report about two trees, part by part and in which order. */
module ImmutabilityFaults {
  import opened TextOrder
  import opened Catalogs
  import opened Immutability

  ghost predicate DistinctVersions(schemas: seq<SchemaEntry>)
  {
    && (forall e | e in schemas :: e.artifactPath != "")
    && (forall i, j | 0 <= i < j < |schemas| :: RefKey(schemas[i].ref) != RefKey(schemas[j].ref))
  }

  ghost predicate DistinctIds(us: seq<Upcaster>)
  {
    && (forall u | u in us :: u.id != "")
    && (forall i, j | 0 <= i < j < |us| :: us[i].id != us[j].id)
  }

  ghost predicate Formed(t: Tree)
  {
    && DistinctVersions(t.catalog.schemas)
    && DistinctIds(t.catalog.upcasters)
    && forall u | u in t.catalog.upcasters :: UpcasterForm(u)
  }

  lemma FormedIsWellFormed(t: Tree)
    ensures Formed(t) <==> WellFormed(t.catalog)
  {
  }

  ghost predicate Readable(a: Tree, b: Tree, e: SchemaEntry)
  {
    e in b.catalog.schemas ==> e.artifactPath in a.blobs && e.artifactPath in b.blobs
  }

  /** Exactly when the check stops before it has collected its list of violations. */
  ghost predicate RaisesAtOnce(a: Tree, b: Tree)
  {
    || !WellFormed(a.catalog) || !WellFormed(b.catalog)
    || exists e :: e in a.catalog.schemas && !Readable(a, b, e)
  }

  ghost predicate UpcasterHolds(w: World, t: Tree, u: Upcaster)
  {
    forall p | p in UpcasterPins(u) :: PinHolds(w, t, p)
  }

  ghost predicate AllHold(w: World, t: Tree, us: seq<Upcaster>)
  {
    forall u | u in us :: UpcasterHolds(w, t, u)
  }

  /** No pin of the upcaster has different bytes in the two trees, where both could be read. */
  ghost predicate SameWhereRead(a: Tree, b: Tree, u: Upcaster)
  {
    forall k: nat | k < |UpcasterPins(u)| ::
      var p := UpcasterPins(u)[k].path;
      p in a.blobs && p in b.blobs ==> a.blobs[p] == b.blobs[p]
  }

  lemma PassesWhen(w: World, a: Tree, b: Tree)
    requires WellFormed(a.catalog) && WellFormed(b.catalog)
    ensures Passes(w, a, b) <==>
              && AllHold(w, a, a.catalog.upcasters) && AllHold(w, b, b.catalog.upcasters)
              && (forall e | e in a.catalog.schemas :: SchemaKept(w, a, b, e))
              && (forall u | u in a.catalog.upcasters :: u in b.catalog.upcasters && SameWhereRead(a, b, u))
  {
  }

  // ---------------------------------------------------------------- the violations and their order

  /** One upcaster's artifact at one position is missing, or is not what its pin says. */
  ghost predicate PinFault(w: World, t: Tree, current: bool, u: Upcaster, v: Violation)
  {
    && (v.ArtifactMissing? || v.ArtifactMismatch?) && v.current == current && v.id == u.id
    && v.position < |UpcasterPins(u)|
    && var p := UpcasterPins(u)[v.position];
       if v.ArtifactMissing? then p.path !in t.blobs else p.path in t.blobs && !PinHolds(w, t, p)
  }

  /** One baseline schema version is deleted, changed, or has bytes that changed and were not repaired. */
  ghost predicate SchemaFault(w: World, a: Tree, b: Tree, e: SchemaEntry, v: Violation)
  {
    match v
    case SchemaDeleted(key) => key == RefKey(e.ref) && key !in VersionIds(b.catalog)
    case SchemaChanged(key) => key == RefKey(e.ref) && key in VersionIds(b.catalog) && e !in b.catalog.schemas
    case SchemaBytesChanged(key) =>
      key == RefKey(e.ref) && e in b.catalog.schemas && Differs(a, b, e) && !Repair(w, a, b, e)
    case _ => false
  }

  /** One baseline upcaster is deleted, changed, or has an artifact whose bytes changed. */
  ghost predicate EdgeFault(a: Tree, b: Tree, u: Upcaster, v: Violation)
  {
    match v
    case UpcasterDeleted(id) => id == u.id && id !in UpcasterIds(b.catalog)
    case UpcasterChanged(id) => id == u.id && id in UpcasterIds(b.catalog) && u !in b.catalog.upcasters
    case UpcasterBytesChanged(id, position) =>
      && id == u.id && u in b.catalog.upcasters && position < |UpcasterPins(u)|
      && var p := UpcasterPins(u)[position].path;
         p in a.blobs && p in b.blobs && a.blobs[p] != b.blobs[p]
    case _ => false
  }

  ghost predicate PinFaults(w: World, t: Tree, current: bool, us: seq<Upcaster>, v: Violation)
  {
    exists u :: u in us && PinFault(w, t, current, u, v)
  }

  ghost predicate SchemaFaults(w: World, a: Tree, b: Tree, es: seq<SchemaEntry>, v: Violation)
  {
    exists e :: e in es && SchemaFault(w, a, b, e, v)
  }

  ghost predicate EdgeFaults(a: Tree, b: Tree, us: seq<Upcaster>, v: Violation)
  {
    exists u :: u in us && EdgeFault(a, b, u, v)
  }

  lemma PinFaultsMean(w: World, a: Tree, b: Tree, v: Violation)
    requires v.ArtifactMissing? || v.ArtifactMismatch?
    ensures var t := if v.current then b else a;
            Holds(w, a, b, v) <==> PinFaults(w, t, v.current, t.catalog.upcasters, v)
  {
    hide UpcasterPins, PinHolds;
    var t := if v.current then b else a;
    if Holds(w, a, b, v) {
      var u :| u in t.catalog.upcasters && u.id == v.id && v.position < |UpcasterPins(u)| &&
        (if v.ArtifactMissing? then UpcasterPins(u)[v.position].path !in t.blobs
         else UpcasterPins(u)[v.position].path in t.blobs && !PinHolds(w, t, UpcasterPins(u)[v.position]));
      assert PinFault(w, t, v.current, u, v);
    }
  }

  lemma SchemaFaultsMean(w: World, a: Tree, b: Tree, v: Violation)
    requires v.SchemaDeleted? || v.SchemaChanged? || v.SchemaBytesChanged?
    requires DistinctVersions(b.catalog.schemas)
    ensures Holds(w, a, b, v) <==> SchemaFaults(w, a, b, a.catalog.schemas, v)
  {
    match v
    case SchemaDeleted(key) =>
      if Holds(w, a, b, v) {
        var e :| e in a.catalog.schemas && RefKey(e.ref) == key;
        assert SchemaFault(w, a, b, e, v);
      }
    case SchemaChanged(key) =>
      if Holds(w, a, b, v) {
        var e, f :| e in a.catalog.schemas && f in b.catalog.schemas && RefKey(e.ref) == key == RefKey(f.ref) && e != f;
        OneEntryPerVersion(b.catalog.schemas, f, e);
        assert SchemaFault(w, a, b, e, v);
      }
      if SchemaFaults(w, a, b, a.catalog.schemas, v) {
        var e :| e in a.catalog.schemas && SchemaFault(w, a, b, e, v);
        var f :| f in b.catalog.schemas && RefKey(f.ref) == key;
      }
    case SchemaBytesChanged(key) =>
      if Holds(w, a, b, v) {
        var e :| e in a.catalog.schemas && RefKey(e.ref) == key && e in b.catalog.schemas && Differs(a, b, e) &&
          !Repair(w, a, b, e);
        assert SchemaFault(w, a, b, e, v);
      }
  }

  lemma OneEntryPerVersion(schemas: seq<SchemaEntry>, f: SchemaEntry, e: SchemaEntry)
    requires DistinctVersions(schemas) && f in schemas && e != f && RefKey(e.ref) == RefKey(f.ref)
    ensures e !in schemas
  {
    forall i | 0 <= i < |schemas|
      ensures schemas[i] != e
    {
      var j :| 0 <= j < |schemas| && schemas[j] == f;
    }
  }

  lemma EdgeFaultsMean(w: World, a: Tree, b: Tree, v: Violation)
    requires v.UpcasterDeleted? || v.UpcasterChanged? || v.UpcasterBytesChanged?
    requires DistinctIds(b.catalog.upcasters)
    ensures Holds(w, a, b, v) <==> EdgeFaults(a, b, a.catalog.upcasters, v)
  {
    hide UpcasterPins;
    match v
    case UpcasterDeleted(id) =>
      if Holds(w, a, b, v) {
        var u :| u in a.catalog.upcasters && u.id == id;
        assert EdgeFault(a, b, u, v);
      }
    case UpcasterChanged(id) =>
      if Holds(w, a, b, v) {
        var u, x :| u in a.catalog.upcasters && x in b.catalog.upcasters && u.id == id == x.id && u != x;
        OneUpcasterPerId(b.catalog.upcasters, x, u);
        assert EdgeFault(a, b, u, v);
      }
      if EdgeFaults(a, b, a.catalog.upcasters, v) {
        var u :| u in a.catalog.upcasters && EdgeFault(a, b, u, v);
        var x :| x in b.catalog.upcasters && x.id == id;
      }
    case UpcasterBytesChanged(id, position) =>
      if Holds(w, a, b, v) {
        var u :| u in a.catalog.upcasters && u.id == id && u in b.catalog.upcasters && position < |UpcasterPins(u)| &&
          UpcasterPins(u)[position].path in a.blobs && UpcasterPins(u)[position].path in b.blobs &&
          a.blobs[UpcasterPins(u)[position].path] != b.blobs[UpcasterPins(u)[position].path];
        assert EdgeFault(a, b, u, v);
      }
  }

  lemma OneUpcasterPerId(us: seq<Upcaster>, x: Upcaster, u: Upcaster)
    requires DistinctIds(us) && x in us && u != x && u.id == x.id
    ensures u !in us
  {
    forall i | 0 <= i < |us|
      ensures us[i] != u
    {
      var j :| 0 <= j < |us| && us[j] == x;
    }
  }

  /** The part of the check that reports a violation: baseline pins, current pins, schemas, upcasters. */
  function Part(v: Violation): nat
  {
    match v
    case ArtifactMissing(current, _, _) => if current then 1 else 0
    case ArtifactMismatch(current, _, _) => if current then 1 else 0
    case SchemaDeleted(_) => 2
    case SchemaChanged(_) => 2
    case SchemaBytesChanged(_) => 2
    case _ => 3
  }

  function About(v: Violation): VersionId
  {
    match v
    case SchemaDeleted(key) => key
    case SchemaChanged(key) => key
    case SchemaBytesChanged(key) => key
    case ArtifactMissing(_, id, _) => (id, "")
    case ArtifactMismatch(_, id, _) => (id, "")
    case UpcasterDeleted(id) => (id, "")
    case UpcasterChanged(id) => (id, "")
    case UpcasterBytesChanged(id, _) => (id, "")
  }

  function PositionOf(v: Violation): nat
  {
    match v
    case ArtifactMissing(_, _, position) => position
    case ArtifactMismatch(_, _, position) => position
    case UpcasterBytesChanged(_, position) => position
    case _ => 0
  }

  /** Reported earlier: in an earlier part, or there about a lower version or id, or at a lower position of one. */
  ghost predicate Earlier(x: Violation, y: Violation)
  {
    || Part(x) < Part(y)
    || (Part(x) == Part(y) && PairBelow(About(x), About(y)))
    || (Part(x) == Part(y) && About(x) == About(y) && PositionOf(x) < PositionOf(y))
  }

  ghost predicate InOrder(violations: seq<Violation>)
  {
    forall i, j | 0 <= i < j < |violations| :: Earlier(violations[i], violations[j])
  }

  lemma InOrderAppend(x: seq<Violation>, y: seq<Violation>)
    requires InOrder(x) && InOrder(y) && forall v, u | v in x && u in y :: Earlier(v, u)
    ensures InOrder(x + y)
  {
    hide Earlier;
  }

  /** Everything is reported, in order, and nothing else: the result of `Check` when it collects violations. */
  ghost predicate ReportsAll(w: World, a: Tree, b: Tree, violations: seq<Violation>)
  {
    && violations != []
    && (forall v :: v in violations <==> Holds(w, a, b, v))
    && InOrder(violations)
  }

  lemma NoPinFaults(w: World, t: Tree, current: bool, us: seq<Upcaster>)
    ensures (forall v :: !PinFaults(w, t, current, us, v)) <==> AllHold(w, t, us)
  {
    hide UpcasterPins, PinHolds;
    if forall v :: !PinFaults(w, t, current, us, v) {
      forall u, p | u in us && p in UpcasterPins(u)
        ensures PinHolds(w, t, p)
      {
        var k :| 0 <= k < |UpcasterPins(u)| && UpcasterPins(u)[k] == p;
        assert !PinFaults(w, t, current, us, ArtifactMissing(current, u.id, k));
        assert !PinFault(w, t, current, u, ArtifactMissing(current, u.id, k));
        assert !PinFaults(w, t, current, us, ArtifactMismatch(current, u.id, k));
        assert !PinFault(w, t, current, u, ArtifactMismatch(current, u.id, k));
      }
    }
    if AllHold(w, t, us) {
      forall v, u | u in us
        ensures !PinFault(w, t, current, u, v)
      {
        assert UpcasterHolds(w, t, u);
        HeldIsPresent(w, t);
      }
    }
  }

  lemma HeldIsPresent(w: World, t: Tree)
    ensures forall p | PinHolds(w, t, p) :: p.path in t.blobs
  {
  }

  lemma PinFaultsMore(w: World, t: Tree, current: bool, us: seq<Upcaster>, u: Upcaster, v: Violation)
    ensures PinFaults(w, t, current, us + [u], v) <==> PinFaults(w, t, current, us, v) || PinFault(w, t, current, u, v)
  {
    hide PinFault;
    assert forall x :: x in us + [u] <==> x in us || x == u;
  }

  lemma EarlierById(x: Violation, y: Violation)
    requires Part(x) == Part(y) && Below(About(x).0, About(y).0)
    ensures Earlier(x, y)
  {
    hide Below;
  }

  /** What one more upcaster adds to the loaded artifacts comes after what is there. */
  lemma LoadedInOrder(w: World, t: Tree, current: bool, us: seq<Upcaster>, u: Upcaster, seen: seq<Violation>,
      more: seq<Violation>)
    requires forall v :: v in seen <==> PinFaults(w, t, current, us, v)
    requires forall v :: v in more <==> PinFault(w, t, current, u, v)
    requires InOrder(seen) && InOrder(more) && forall x | x in us :: Below(x.id, u.id)
    ensures InOrder(seen + more)
    ensures forall v :: v in seen + more <==> PinFaults(w, t, current, us + [u], v)
  {
    hide InOrder, Earlier, Below, PinFaults, UpcasterPins;
    forall v, z | v in seen && z in more
      ensures Earlier(v, z)
    {
      SomePinFault(w, t, current, us, v);
      EarlierById(v, z);
    }
    InOrderAppend(seen, more);
    forall v: Violation
      ensures v in seen + more <==> PinFaults(w, t, current, us + [u], v)
    {
      PinFaultsMore(w, t, current, us, u, v);
    }
  }

  lemma SomePinFault(w: World, t: Tree, current: bool, us: seq<Upcaster>, v: Violation)
    requires PinFaults(w, t, current, us, v)
    ensures exists u :: u in us && u.id == About(v).0
    ensures Part(v) == (if current then 1 else 0)
  {
    var u :| u in us && PinFault(w, t, current, u, v);
  }

  lemma SchemaFaultsMore(w: World, a: Tree, b: Tree, es: seq<SchemaEntry>, e: SchemaEntry, v: Violation)
    ensures SchemaFaults(w, a, b, es + [e], v) <==> SchemaFaults(w, a, b, es, v) || SchemaFault(w, a, b, e, v)
  {
    hide SchemaFault;
    assert forall x :: x in es + [e] <==> x in es || x == e;
  }

  lemma SomeSchemaFault(w: World, a: Tree, b: Tree, es: seq<SchemaEntry>, v: Violation)
    requires SchemaFaults(w, a, b, es, v)
    ensures exists e :: e in es && RefKey(e.ref) == About(v)
    ensures Part(v) == 2
  {
    var e :| e in es && SchemaFault(w, a, b, e, v);
  }

  lemma OneInOrder(violations: seq<Violation>)
    requires |violations| <= 1
    ensures InOrder(violations)
  {
  }

  lemma SchemaFaultAbout(w: World, a: Tree, b: Tree, e: SchemaEntry, v: Violation)
    requires SchemaFault(w, a, b, e, v)
    ensures Part(v) == 2 && About(v) == RefKey(e.ref)
  {
  }

  lemma NoSchemaFaults(w: World, a: Tree, b: Tree, es: seq<SchemaEntry>)
    requires forall e | e in es :: Readable(a, b, e)
    ensures (forall v :: !SchemaFaults(w, a, b, es, v)) <==> forall e | e in es :: SchemaKept(w, a, b, e)
  {
    hide Differs, Repair;
    if forall v :: !SchemaFaults(w, a, b, es, v) {
      forall e | e in es
        ensures SchemaKept(w, a, b, e)
      {
        NoFaultMeansKept(w, a, b, es, e);
      }
    }
    if forall e | e in es :: SchemaKept(w, a, b, e) {
      forall v, e | e in es
        ensures !SchemaFault(w, a, b, e, v)
      {
        KeptMeansNoFault(w, a, b, e, v);
      }
    }
  }

  lemma NoFaultMeansKept(w: World, a: Tree, b: Tree, es: seq<SchemaEntry>, e: SchemaEntry)
    requires e in es && Readable(a, b, e) && forall v :: !SchemaFaults(w, a, b, es, v)
    ensures SchemaKept(w, a, b, e)
  {
    var key := RefKey(e.ref);
    assert !SchemaFaults(w, a, b, es, SchemaDeleted(key)) && !SchemaFault(w, a, b, e, SchemaDeleted(key));
    assert !SchemaFaults(w, a, b, es, SchemaChanged(key)) && !SchemaFault(w, a, b, e, SchemaChanged(key));
    assert !SchemaFaults(w, a, b, es, SchemaBytesChanged(key)) && !SchemaFault(w, a, b, e, SchemaBytesChanged(key));
  }

  lemma KeptMeansNoFault(w: World, a: Tree, b: Tree, e: SchemaEntry, v: Violation)
    requires SchemaKept(w, a, b, e)
    ensures !SchemaFault(w, a, b, e, v)
  {
  }

  lemma EdgeFaultsMore(a: Tree, b: Tree, us: seq<Upcaster>, u: Upcaster, v: Violation)
    ensures EdgeFaults(a, b, us + [u], v) <==> EdgeFaults(a, b, us, v) || EdgeFault(a, b, u, v)
  {
    hide EdgeFault;
    assert forall x :: x in us + [u] <==> x in us || x == u;
  }

  lemma EdgeFaultAbout(a: Tree, b: Tree, u: Upcaster, v: Violation)
    requires EdgeFault(a, b, u, v)
    ensures Part(v) == 3 && About(v) == (u.id, "")
  {
  }

  lemma SomeEdgeFault(a: Tree, b: Tree, us: seq<Upcaster>, v: Violation)
    requires EdgeFaults(a, b, us, v)
    ensures exists u :: u in us && u.id == About(v).0
    ensures Part(v) == 3
  {
    var u :| u in us && EdgeFault(a, b, u, v);
    EdgeFaultAbout(a, b, u, v);
  }

  lemma EdgesInOrder(a: Tree, b: Tree, us: seq<Upcaster>, u: Upcaster, seen: seq<Violation>, more: seq<Violation>)
    requires forall v :: v in seen <==> EdgeFaults(a, b, us, v)
    requires forall v :: v in more <==> EdgeFault(a, b, u, v)
    requires InOrder(seen) && InOrder(more) && forall x | x in us :: Below(x.id, u.id)
    ensures InOrder(seen + more)
    ensures forall v :: v in seen + more <==> EdgeFaults(a, b, us + [u], v)
  {
    hide InOrder, Earlier, Below, EdgeFaults, EdgeFault;
    forall v, z | v in seen && z in more
      ensures Earlier(v, z)
    {
      SomeEdgeFault(a, b, us, v);
      EdgeFaultAbout(a, b, u, z);
      EarlierById(v, z);
    }
    InOrderAppend(seen, more);
    forall v: Violation
      ensures v in seen + more <==> EdgeFaults(a, b, us + [u], v)
    {
      EdgeFaultsMore(a, b, us, u, v);
    }
  }

  lemma NoEdgeFault(a: Tree, b: Tree, u: Upcaster)
    ensures (forall v :: !EdgeFault(a, b, u, v)) <==> u in b.catalog.upcasters && SameWhereRead(a, b, u)
  {
    hide UpcasterPins;
    if forall v :: !EdgeFault(a, b, u, v) {
      assert !EdgeFault(a, b, u, UpcasterDeleted(u.id)) && !EdgeFault(a, b, u, UpcasterChanged(u.id));
      forall k: nat | k < |UpcasterPins(u)|
        ensures var p := UpcasterPins(u)[k].path; p in a.blobs && p in b.blobs ==> a.blobs[p] == b.blobs[p]
      {
        assert !EdgeFault(a, b, u, UpcasterBytesChanged(u.id, k));
      }
    }
  }

  lemma NoEdgeFaults(a: Tree, b: Tree, us: seq<Upcaster>)
    ensures (forall v :: !EdgeFaults(a, b, us, v)) <==>
              forall u | u in us :: u in b.catalog.upcasters && SameWhereRead(a, b, u)
  {
    hide EdgeFault, SameWhereRead;
    forall u: Upcaster
      ensures (forall v :: !EdgeFault(a, b, u, v)) <==> u in b.catalog.upcasters && SameWhereRead(a, b, u)
    {
      NoEdgeFault(a, b, u);
    }
    if forall v :: !EdgeFaults(a, b, us, v) {
      forall u, v | u in us
        ensures !EdgeFault(a, b, u, v)
      {
        assert !EdgeFaults(a, b, us, v);
      }
    }
  }

  lemma SameFaults(w: World, a: Tree, b: Tree, t: Tree, current: bool, us: seq<Upcaster>, vs: seq<Upcaster>,
      v: Violation)
    requires forall u :: u in us <==> u in vs
    ensures PinFaults(w, t, current, us, v) <==> PinFaults(w, t, current, vs, v)
    ensures EdgeFaults(a, b, us, v) <==> EdgeFaults(a, b, vs, v)
  {
    hide PinFault, EdgeFault;
  }

  lemma SameSchemaFaults(w: World, a: Tree, b: Tree, es: seq<SchemaEntry>, fs: seq<SchemaEntry>, v: Violation)
    requires forall e :: e in es <==> e in fs
    ensures SchemaFaults(w, a, b, es, v) <==> SchemaFaults(w, a, b, fs, v)
  {
    hide SchemaFault;
  }

  /** A violation holds exactly when one of the four parts of the check finds it. */
  lemma HoldsMeans(w: World, a: Tree, b: Tree, v: Violation)
    requires DistinctVersions(b.catalog.schemas) && DistinctIds(b.catalog.upcasters)
    ensures Holds(w, a, b, v) <==>
              || PinFaults(w, a, false, a.catalog.upcasters, v) || PinFaults(w, b, true, b.catalog.upcasters, v)
              || SchemaFaults(w, a, b, a.catalog.schemas, v) || EdgeFaults(a, b, a.catalog.upcasters, v)
  {
    if v.ArtifactMissing? || v.ArtifactMismatch? {
      PinFaultsMean(w, a, b, v);
    } else if v.SchemaDeleted? || v.SchemaChanged? || v.SchemaBytesChanged? {
      SchemaFaultsMean(w, a, b, v);
    } else {
      EdgeFaultsMean(w, a, b, v);
    }
    hide Holds, PinHolds, UpcasterPins, Differs, Repair;
  }

  lemma PartsInOrder(x: seq<Violation>, y: seq<Violation>, n: nat)
    requires InOrder(x) && InOrder(y)
    requires (forall v | v in x :: Part(v) < n) && forall v | v in y :: Part(v) == n
    ensures InOrder(x + y) && forall v | v in x + y :: Part(v) <= n
  {
    hide PairBelow;
    InOrderAppend(x, y);
  }

  lemma AllReported(w: World, a: Tree, b: Tree, was: seq<Upcaster>, now: seq<Upcaster>, entries: seq<SchemaEntry>,
      v1: seq<Violation>, v2: seq<Violation>, v3: seq<Violation>, v4: seq<Violation>)
    requires DistinctVersions(b.catalog.schemas) && DistinctIds(b.catalog.upcasters)
    requires forall u :: u in was <==> u in a.catalog.upcasters
    requires forall u :: u in now <==> u in b.catalog.upcasters
    requires forall e :: e in entries <==> e in a.catalog.schemas
    requires forall v :: v in v1 <==> PinFaults(w, a, false, was, v)
    requires forall v :: v in v2 <==> PinFaults(w, b, true, now, v)
    requires forall v :: v in v3 <==> SchemaFaults(w, a, b, entries, v)
    requires forall v :: v in v4 <==> EdgeFaults(a, b, was, v)
    requires InOrder(v1) && InOrder(v2) && InOrder(v3) && InOrder(v4)
    ensures InOrder(v1 + v2 + v3 + v4)
    ensures forall v :: v in v1 + v2 + v3 + v4 <==> Holds(w, a, b, v)
  {
    hide DistinctVersions, DistinctIds, PinFaults, SchemaFaults, EdgeFaults, InOrder, Holds;
    forall v: Violation
      ensures v in v1 + v2 + v3 + v4 <==> Holds(w, a, b, v)
      ensures (v in v1 ==> Part(v) == 0) && (v in v2 ==> Part(v) == 1)
      ensures (v in v3 ==> Part(v) == 2) && (v in v4 ==> Part(v) == 3)
    {
      SameFaults(w, a, b, a, false, was, a.catalog.upcasters, v);
      SameFaults(w, a, b, b, true, now, b.catalog.upcasters, v);
      SameSchemaFaults(w, a, b, entries, a.catalog.schemas, v);
      HoldsMeans(w, a, b, v);
      PartOfFault(w, a, b, was, now, entries, v);
    }
    PartsInOrder(v1, v2, 1);
    PartsInOrder(v1 + v2, v3, 2);
    PartsInOrder(v1 + v2 + v3, v4, 3);
  }

  lemma PartOfFault(w: World, a: Tree, b: Tree, was: seq<Upcaster>, now: seq<Upcaster>, entries: seq<SchemaEntry>,
      v: Violation)
    ensures PinFaults(w, a, false, was, v) ==> Part(v) == 0
    ensures PinFaults(w, b, true, now, v) ==> Part(v) == 1
    ensures SchemaFaults(w, a, b, entries, v) ==> Part(v) == 2
    ensures EdgeFaults(a, b, was, v) ==> Part(v) == 3
  {
    if PinFaults(w, a, false, was, v) { SomePinFault(w, a, false, was, v); }
    if PinFaults(w, b, true, now, v) { SomePinFault(w, b, true, now, v); }
    if SchemaFaults(w, a, b, entries, v) { SomeSchemaFault(w, a, b, entries, v); }
    if EdgeFaults(a, b, was, v) { SomeEdgeFault(a, b, was, v); }
    hide PinFaults, SchemaFaults, EdgeFaults;
  }

  /** Without a violation the later tree passes, and only then. */
  lemma NoneMeansPasses(w: World, a: Tree, b: Tree)
    requires !RaisesAtOnce(a, b)
    ensures (forall v :: !Holds(w, a, b, v)) <==> Passes(w, a, b)
  {
    hide Holds, PinFaults, SchemaFaults, EdgeFaults, UpcasterForm, SchemaKept, SameWhereRead, UpcasterHolds, Passes;
    forall v: Violation
      ensures Holds(w, a, b, v) <==>
                || PinFaults(w, a, false, a.catalog.upcasters, v) || PinFaults(w, b, true, b.catalog.upcasters, v)
                || SchemaFaults(w, a, b, a.catalog.schemas, v) || EdgeFaults(a, b, a.catalog.upcasters, v)
    {
      HoldsMeans(w, a, b, v);
    }
    NoPinFaults(w, a, false, a.catalog.upcasters);
    NoPinFaults(w, b, true, b.catalog.upcasters);
    NoSchemaFaults(w, a, b, a.catalog.schemas);
    NoEdgeFaults(a, b, a.catalog.upcasters);
    PassesWhen(w, a, b);
  }
}
