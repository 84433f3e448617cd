/** The loops of `check_schema_immutability`, proved to decide exactly when a tree passes against another. */
module ImmutabilityCheck {
  import opened Text
  import opened Ordering
  import opened TextOrder
  import opened Catalogs
  import opened Immutability
  import opened ImmutabilityFaults

  // ---------------------------------------------------------------- indexes

  /** What `_schema_entries` builds. */
  ghost predicate IndexesSchemas(indexed: map<VersionId, SchemaEntry>, schemas: seq<SchemaEntry>)
  {
    && indexed.Keys == VersionsOf(schemas)
    && |indexed| == |schemas|
    && forall e | e in schemas :: RefKey(e.ref) in indexed && indexed[RefKey(e.ref)] == e
  }

  ghost predicate IndexesUpcasters(indexed: map<string, Upcaster>, us: seq<Upcaster>)
  {
    && indexed.Keys == IdsOf(us)
    && |indexed| == |us|
    && forall u | u in us :: u.id in indexed && indexed[u.id] == u
  }

  lemma DistinctOneMore(schemas: seq<SchemaEntry>, e: SchemaEntry)
    requires DistinctVersions(schemas)
    ensures DistinctVersions(schemas + [e]) <==> e.artifactPath != "" && RefKey(e.ref) !in VersionsOf(schemas)
  {
    var more := schemas + [e];
    var n := |schemas|;
    assert more[n] == e && forall i | 0 <= i < n :: more[i] == schemas[i];
    if RefKey(e.ref) in VersionsOf(schemas) {
      var x :| x in schemas && RefKey(x.ref) == RefKey(e.ref);
      var i :| 0 <= i < n && schemas[i] == x;
      assert RefKey(more[i].ref) == RefKey(more[n].ref);
    } else {
      assert forall i | 0 <= i < n :: schemas[i] in schemas && RefKey(schemas[i].ref) in VersionsOf(schemas);
      assert forall x :: x in more <==> x in schemas || x == e;
    }
  }

  lemma IndexOneMore(indexed: map<VersionId, SchemaEntry>, schemas: seq<SchemaEntry>, e: SchemaEntry)
    requires IndexesSchemas(indexed, schemas) && DistinctVersions(schemas)
    ensures DistinctVersions(schemas + [e]) <==> e.artifactPath != "" && RefKey(e.ref) !in indexed
    ensures RefKey(e.ref) !in indexed ==> IndexesSchemas(indexed[RefKey(e.ref) := e], schemas + [e])
  {
    hide DistinctVersions, VersionsOf, RefKey;
    DistinctOneMore(schemas, e);
    VersionsSnoc(schemas, e);
    if RefKey(e.ref) !in indexed {
      var more := indexed[RefKey(e.ref) := e];
      assert more.Keys == indexed.Keys + {RefKey(e.ref)};
      forall x | x in schemas + [e]
        ensures RefKey(x.ref) in more && more[RefKey(x.ref)] == x
      {
        if x in schemas {
          assert RefKey(x.ref) in indexed;
        }
      }
    }
  }

  lemma VersionsSnoc(schemas: seq<SchemaEntry>, e: SchemaEntry)
    ensures VersionsOf(schemas + [e]) == VersionsOf(schemas) + {RefKey(e.ref)}
  {
  }

  /** `_schema_entries`: None for a missing path or a repeated version. */
  method IndexSchemas(schemas: seq<SchemaEntry>) returns (r: Option<map<VersionId, SchemaEntry>>)
    ensures r.Some? <==> DistinctVersions(schemas)
    ensures r.Some? ==> IndexesSchemas(r.value, schemas)
  {
    var indexed: map<VersionId, SchemaEntry> := map[];
    for i := 0 to |schemas|
      invariant DistinctVersions(schemas[..i])
      invariant IndexesSchemas(indexed, schemas[..i])
    {
      hide IndexesSchemas;
      var e := schemas[i];
      assert schemas[..i + 1] == schemas[..i] + [e];
      IndexOneMore(indexed, schemas[..i], e);
      if e.artifactPath == "" || RefKey(e.ref) in indexed {
        DistinctPrefix(schemas, i + 1);
        return None;
      }
      indexed := indexed[RefKey(e.ref) := e];
    }
    assert schemas[..|schemas|] == schemas;
    return Some(indexed);
  }

  lemma DistinctPrefix(schemas: seq<SchemaEntry>, i: nat)
    requires i <= |schemas|
    ensures DistinctVersions(schemas) ==> DistinctVersions(schemas[..i])
  {
  }

  lemma DistinctOneMoreUpcaster(us: seq<Upcaster>, u: Upcaster)
    requires DistinctIds(us)
    ensures DistinctIds(us + [u]) <==> u.id != "" && u.id !in IdsOf(us)
  {
    var more := us + [u];
    var n := |us|;
    assert more[n] == u && forall i | 0 <= i < n :: more[i] == us[i];
    if u.id in IdsOf(us) {
      var x :| x in us && x.id == u.id;
      var i :| 0 <= i < n && us[i] == x;
      assert more[i].id == more[n].id;
    } else {
      assert forall i | 0 <= i < n :: us[i] in us && us[i].id in IdsOf(us);
      assert forall x :: x in more <==> x in us || x == u;
    }
  }

  lemma IndexOneMoreUpcaster(indexed: map<string, Upcaster>, us: seq<Upcaster>, u: Upcaster)
    requires IndexesUpcasters(indexed, us) && DistinctIds(us)
    ensures DistinctIds(us + [u]) <==> u.id != "" && u.id !in indexed
    ensures u.id !in indexed ==> IndexesUpcasters(indexed[u.id := u], us + [u])
  {
    hide DistinctIds, IdsOf;
    DistinctOneMoreUpcaster(us, u);
    IdsSnoc(us, u);
    if u.id !in indexed {
      var more := indexed[u.id := u];
      assert more.Keys == indexed.Keys + {u.id};
      forall x | x in us + [u]
        ensures x.id in more && more[x.id] == x
      {
        if x in us {
          assert x.id in indexed;
        }
      }
    }
  }

  lemma IdsSnoc(us: seq<Upcaster>, u: Upcaster)
    ensures IdsOf(us + [u]) == IdsOf(us) + {u.id}
  {
  }

  /** `_upcaster_entries`: None for an empty or a repeated id. */
  method IndexUpcasters(us: seq<Upcaster>) returns (r: Option<map<string, Upcaster>>)
    ensures r.Some? <==> DistinctIds(us)
    ensures r.Some? ==> IndexesUpcasters(r.value, us)
  {
    var indexed: map<string, Upcaster> := map[];
    for i := 0 to |us|
      invariant DistinctIds(us[..i])
      invariant IndexesUpcasters(indexed, us[..i])
    {
      hide IndexesUpcasters;
      var u := us[i];
      assert us[..i + 1] == us[..i] + [u];
      IndexOneMoreUpcaster(indexed, us[..i], u);
      if u.id == "" || u.id in indexed {
        DistinctIdsPrefix(us, i + 1);
        return None;
      }
      indexed := indexed[u.id := u];
    }
    assert us[..|us|] == us;
    return Some(indexed);
  }

  lemma DistinctIdsPrefix(us: seq<Upcaster>, i: nat)
    requires i <= |us|
    ensures DistinctIds(us) ==> DistinctIds(us[..i])
  {
  }

  // ---------------------------------------------------------------- upcaster artifacts

  /** The artifacts of one upcaster that could be read, by position. */
  ghost predicate Reads(t: Tree, u: Upcaster, loaded: map<nat, Bytes>)
  {
    && (forall k: nat :: k in loaded <==> k < |UpcasterPins(u)| && UpcasterPins(u)[k].path in t.blobs)
    && (forall k: nat | k in loaded :: loaded[k] == t.blobs[UpcasterPins(u)[k].path])
  }

  /** One upcaster of `_load_upcaster_artifacts`. */
  method LoadArtifacts(w: World, t: Tree, current: bool, u: Upcaster)
    returns (violations: seq<Violation>, loaded: map<nat, Bytes>)
    ensures forall v :: v in violations <==> PinFault(w, t, current, u, v)
    ensures InOrder(violations)
    ensures Reads(t, u, loaded)
  {
    hide UpcasterPins, PinHolds, PairBelow;
    var pins := UpcasterPins(u);
    violations, loaded := [], map[];
    for i := 0 to |pins|
      invariant forall v :: v in violations <==> PinFault(w, t, current, u, v) && v.position < i
      invariant InOrder(violations)
      invariant forall k: nat :: k in loaded <==> k < i && pins[k].path in t.blobs
      invariant forall k: nat | k in loaded :: loaded[k] == t.blobs[pins[k].path]
    {
      var p := pins[i];
      var more := [];
      if p.path !in t.blobs {
        more := [ArtifactMissing(current, u.id, i)];
      } else {
        PinHoldsMeans(w, t, p);
        if w.sha(t.blobs[p.path]) != p.sha {
          more := [ArtifactMismatch(current, u.id, i)];
        }
        loaded := loaded[i := t.blobs[p.path]];
      }
      assert forall v :: v in more <==> PinFault(w, t, current, u, v) && v.position == i;
      InOrderAppend(violations, more);
      violations := violations + more;
    }
  }

  lemma PinHoldsMeans(w: World, t: Tree, p: Pin)
    requires p.path in t.blobs
    ensures PinHolds(w, t, p) <==> w.sha(t.blobs[p.path]) == p.sha
  {
  }

  /** What `_load_upcaster_artifacts` has read. */
  ghost predicate Loaded(t: Tree, us: seq<Upcaster>, loaded: map<string, map<nat, Bytes>>)
  {
    && loaded.Keys == IdsOf(us)
    && forall u | u in us :: u.id in loaded && Reads(t, u, loaded[u.id])
  }

  lemma LoadedMore(t: Tree, us: seq<Upcaster>, loaded: map<string, map<nat, Bytes>>, u: Upcaster, read: map<nat, Bytes>)
    requires Loaded(t, us, loaded) && Reads(t, u, read) && u.id !in IdsOf(us)
    ensures Loaded(t, us + [u], loaded[u.id := read])
  {
  }

  lemma IdsBefore(us: seq<Upcaster>, i: nat)
    requires i < |us| && DistinctIds(us)
    ensures us[i].id !in IdsOf(us[..i])
  {
  }

  ghost predicate SortedIds(us: seq<Upcaster>)
  {
    forall i, j | 0 <= i < j < |us| :: Below(us[i].id, us[j].id)
  }

  /** `_load_upcaster_artifacts`; not `ok` where it raises at once. */
  method LoadAll(w: World, t: Tree, current: bool, us: seq<Upcaster>)
    returns (ok: bool, violations: seq<Violation>, loaded: map<string, map<nat, Bytes>>)
    requires DistinctIds(us) && SortedIds(us)
    ensures ok <==> forall u | u in us :: UpcasterForm(u)
    ensures ok ==> forall v :: v in violations <==> PinFaults(w, t, current, us, v)
    ensures ok ==> InOrder(violations)
    ensures ok ==> Loaded(t, us, loaded)
  {
    hide UpcasterForm, PinFaults, PinFault, Loaded, DistinctIds, Reads, InOrder;
    violations, loaded := [], map[];
    NothingLoaded(w, t, current);
    for i := 0 to |us|
      invariant forall u | u in us[..i] :: UpcasterForm(u)
      invariant forall v :: v in violations <==> PinFaults(w, t, current, us[..i], v)
      invariant InOrder(violations)
      invariant Loaded(t, us[..i], loaded)
    {
      var u := us[i];
      assert us[..i + 1] == us[..i] + [u] && u in us;
      if !UpcasterForm(u) {
        return false, violations, loaded;
      }
      var more, read := LoadArtifacts(w, t, current, u);
      LoadedInOrder(w, t, current, us[..i], u, violations, more);
      IdsBefore(us, i);
      LoadedMore(t, us[..i], loaded, u, read);
      violations := violations + more;
      loaded := loaded[u.id := read];
    }
    assert us[..|us|] == us;
    ok := true;
  }

  lemma NothingLoaded(w: World, t: Tree, current: bool)
    ensures Loaded(t, [], map[]) && InOrder([]) && forall v :: !PinFaults(w, t, current, [], v)
  {
  }

  // ---------------------------------------------------------------- schemas

  function IdKey(k: VersionId): Key { TextKey(k.0) + TextKey(k.1) }

  function EntryKey(e: SchemaEntry): Key { IdKey(RefKey(e.ref)) }

  ghost predicate EntriesAscending(sorted: seq<SchemaEntry>)
  {
    forall i, j | 0 <= i < j < |sorted| :: PairBelow(RefKey(sorted[i].ref), RefKey(sorted[j].ref))
  }

  datatype Finding = Kept | Fixed | Wrong(violation: Violation) | Unreadable

  /** One iteration of the loop over the baseline's schema versions. */
  method CompareSchema(w: World, a: Tree, b: Tree, current: map<VersionId, SchemaEntry>, e: SchemaEntry)
    returns (f: Finding)
    requires e in a.catalog.schemas
    requires IndexesSchemas(current, b.catalog.schemas)
    ensures f.Unreadable? <==> e in b.catalog.schemas && !(e.artifactPath in a.blobs && e.artifactPath in b.blobs)
    ensures f.Kept? <==> SchemaKept(w, a, b, e) && !Differs(a, b, e)
    ensures f.Fixed? <==> SchemaKept(w, a, b, e) && Differs(a, b, e)
    ensures f.Wrong? ==> SchemaFault(w, a, b, e, f.violation)
  {
    var key := RefKey(e.ref);
    if key !in current {
      return Wrong(SchemaDeleted(key));
    }
    if current[key] != e {
      assert e !in b.catalog.schemas;
      return Wrong(SchemaChanged(key));
    }
    if e.artifactPath !in a.blobs || e.artifactPath !in b.blobs {
      return Unreadable;
    }
    var was, now := a.blobs[e.artifactPath], b.blobs[e.artifactPath];
    if was == now {
      return Kept;
    }
    if w.sha(was) != e.ref.sha256 && w.sha(now) == e.ref.sha256 {
      return Fixed;
    }
    assert Differs(a, b, e) && !Repair(w, a, b, e);
    return Wrong(SchemaBytesChanged(key));
  }

  ghost predicate StrictlyAscending(keys: seq<VersionId>)
  {
    forall i, j | 0 <= i < j < |keys| :: PairBelow(keys[i], keys[j])
  }

  /** `reconciled_schema_versions` for the first `i` sorted entries. */
  ghost predicate Reconciles(w: World, a: Tree, b: Tree, sorted: seq<SchemaEntry>, keys: seq<VersionId>)
  {
    && StrictlyAscending(keys)
    && (forall k :: k in keys <==>
          exists e :: e in sorted && RefKey(e.ref) == k && SchemaKept(w, a, b, e) && Differs(a, b, e))
  }

  lemma ReconcilesMore(w: World, a: Tree, b: Tree, sorted: seq<SchemaEntry>, keys: seq<VersionId>, e: SchemaEntry,
      f: Finding)
    requires Reconciles(w, a, b, sorted, keys)
    requires f.Fixed? <==> SchemaKept(w, a, b, e) && Differs(a, b, e)
    requires forall x | x in sorted :: PairBelow(RefKey(x.ref), RefKey(e.ref))
    ensures Reconciles(w, a, b, sorted + [e], if f.Fixed? then keys + [RefKey(e.ref)] else keys)
  {
    hide SchemaKept, Differs, PairBelow;
    var more := sorted + [e];
    assert forall x :: x in more <==> x in sorted || x == e;
    forall k | k in keys
      ensures PairBelow(k, RefKey(e.ref))
    {
      var x :| x in sorted && RefKey(x.ref) == k && SchemaKept(w, a, b, x) && Differs(a, b, x);
    }
    forall k
      ensures (exists x :: x in more && RefKey(x.ref) == k && SchemaKept(w, a, b, x) && Differs(a, b, x)) <==>
              k in keys || (f.Fixed? && k == RefKey(e.ref))
    {
      if k in keys {
        var x :| x in sorted && RefKey(x.ref) == k && SchemaKept(w, a, b, x) && Differs(a, b, x);
        assert x in more;
      } else if f.Fixed? && k == RefKey(e.ref) {
        assert e in more;
      }
    }
  }

  /** Each baseline version gives at most one violation, and exactly one when it is not kept. */
  lemma OneSchemaFault(w: World, a: Tree, b: Tree, e: SchemaEntry, f: Finding, v: Violation)
    requires Readable(a, b, e) && f.Unreadable? == false
    requires f.Wrong? ==> SchemaFault(w, a, b, e, f.violation)
    requires !f.Wrong? ==> SchemaKept(w, a, b, e)
    ensures SchemaFault(w, a, b, e, v) <==> f.Wrong? && v == f.violation
  {
  }

  lemma ComparedInOrder(w: World, a: Tree, b: Tree, es: seq<SchemaEntry>, e: SchemaEntry, seen: seq<Violation>,
      f: Finding)
    requires forall v :: v in seen <==> SchemaFaults(w, a, b, es, v)
    requires Readable(a, b, e) && f.Unreadable? == false
    requires f.Wrong? ==> SchemaFault(w, a, b, e, f.violation)
    requires !f.Wrong? ==> SchemaKept(w, a, b, e)
    requires InOrder(seen) && forall x | x in es :: PairBelow(RefKey(x.ref), RefKey(e.ref))
    ensures var more := if f.Wrong? then [f.violation] else [];
            InOrder(seen + more) && forall v :: v in seen + more <==> SchemaFaults(w, a, b, es + [e], v)
  {
    hide SchemaFaults, SchemaFault, SchemaKept, Readable, InOrder, PairBelow;
    var more := if f.Wrong? then [f.violation] else [];
    OneInOrder(more);
    forall v, z | v in seen && z in more
      ensures Earlier(v, z)
    {
      SomeSchemaFault(w, a, b, es, v);
      SchemaFaultAbout(w, a, b, e, z);
    }
    InOrderAppend(seen, more);
    forall v: Violation
      ensures v in seen + more <==> SchemaFaults(w, a, b, es + [e], v)
    {
      SchemaFaultsMore(w, a, b, es, e, v);
      OneSchemaFault(w, a, b, e, f, v);
    }
  }

  /** The loop over `sorted(baseline_schemas.items())`. */
  method CompareSchemas(w: World, a: Tree, b: Tree, current: map<VersionId, SchemaEntry>, sorted: seq<SchemaEntry>)
    returns (ok: bool, violations: seq<Violation>, reconciled: seq<VersionId>)
    requires forall e | e in sorted :: e in a.catalog.schemas
    requires EntriesAscending(sorted)
    requires IndexesSchemas(current, b.catalog.schemas)
    ensures ok <==> forall e | e in sorted :: Readable(a, b, e)
    ensures ok ==> forall v :: v in violations <==> SchemaFaults(w, a, b, sorted, v)
    ensures ok ==> InOrder(violations)
    ensures ok ==> Reconciles(w, a, b, sorted, reconciled)
  {
    hide SchemaKept, SchemaFault, SchemaFaults, PairBelow, Reconciles, InOrder, IndexesSchemas;
    violations, reconciled := [], [];
    NothingReconciled(w, a, b);
    for i := 0 to |sorted|
      invariant forall e | e in sorted[..i] :: Readable(a, b, e)
      invariant forall v :: v in violations <==> SchemaFaults(w, a, b, sorted[..i], v)
      invariant InOrder(violations)
      invariant Reconciles(w, a, b, sorted[..i], reconciled)
    {
      var e := sorted[i];
      assert sorted[..i + 1] == sorted[..i] + [e];
      var f := CompareSchema(w, a, b, current, e);
      if f.Unreadable? {
        assert !Readable(a, b, e);
        return false, violations, reconciled;
      }
      ReconcilesMore(w, a, b, sorted[..i], reconciled, e, f);
      ComparedInOrder(w, a, b, sorted[..i], e, violations, f);
      if f.Fixed? {
        reconciled := reconciled + [RefKey(e.ref)];
      } else if f.Wrong? {
        violations := violations + [f.violation];
      }
      assert violations + [] == violations;
    }
    assert sorted[..|sorted|] == sorted;
    ok := true;
  }

  lemma NothingReconciled(w: World, a: Tree, b: Tree)
    ensures Reconciles(w, a, b, [], []) && InOrder([]) && forall v :: !SchemaFaults(w, a, b, [], v)
  {
  }

  // ---------------------------------------------------------------- upcasters

  method CompareArtifacts(ghost a: Tree, ghost b: Tree, u: Upcaster, was: map<nat, Bytes>, now: map<nat, Bytes>)
    returns (violations: seq<Violation>)
    requires u in b.catalog.upcasters && Reads(a, u, was) && Reads(b, u, now)
    ensures forall v :: v in violations <==> EdgeFault(a, b, u, v)
    ensures InOrder(violations)
  {
    hide UpcasterPins, PairBelow;
    violations := [];
    for k := 0 to |UpcasterPins(u)|
      invariant forall v :: v in violations <==> EdgeFault(a, b, u, v) && PositionOf(v) < k
      invariant InOrder(violations)
    {
      var more := [];
      if k in was && k in now && now[k] != was[k] {
        more := [UpcasterBytesChanged(u.id, k)];
      }
      assert forall v :: v in more <==> EdgeFault(a, b, u, v) && PositionOf(v) == k;
      InOrderAppend(violations, more);
      violations := violations + more;
    }
  }

  lemma IndexedUpcaster(b: Tree, u: Upcaster, current: map<string, Upcaster>)
    requires IndexesUpcasters(current, b.catalog.upcasters)
    ensures u.id in current <==> u.id in UpcasterIds(b.catalog)
    ensures u.id in current && current[u.id] == u <==> u in b.catalog.upcasters
  {
  }

  /** One iteration of the loop over the baseline's upcasters. */
  method CompareUpcaster(ghost a: Tree, ghost b: Tree, current: map<string, Upcaster>,
                         was: map<string, map<nat, Bytes>>, now: map<string, map<nat, Bytes>>, u: Upcaster)
    returns (violations: seq<Violation>)
    requires u in a.catalog.upcasters && IndexesUpcasters(current, b.catalog.upcasters)
    requires Loaded(a, a.catalog.upcasters, was) && Loaded(b, b.catalog.upcasters, now)
    ensures forall v :: v in violations <==> EdgeFault(a, b, u, v)
    ensures InOrder(violations)
  {
    hide Reads, UpcasterPins, Earlier;
    IndexedUpcaster(b, u, current);
    if u.id !in current {
      OneInOrder([UpcasterDeleted(u.id)]);
      return [UpcasterDeleted(u.id)];
    }
    if current[u.id] != u {
      OneInOrder([UpcasterChanged(u.id)]);
      return [UpcasterChanged(u.id)];
    }
    violations := CompareArtifacts(a, b, u, was[u.id], now[u.id]);
  }

  method CompareUpcasters(ghost a: Tree, ghost b: Tree, current: map<string, Upcaster>,
                          was: map<string, map<nat, Bytes>>, now: map<string, map<nat, Bytes>>, us: seq<Upcaster>)
    returns (violations: seq<Violation>)
    requires SortedIds(us) && forall u | u in us :: u in a.catalog.upcasters
    requires IndexesUpcasters(current, b.catalog.upcasters)
    requires Loaded(a, a.catalog.upcasters, was) && Loaded(b, b.catalog.upcasters, now)
    ensures forall v :: v in violations <==> EdgeFaults(a, b, us, v)
    ensures InOrder(violations)
  {
    hide EdgeFaults, EdgeFault, IndexesUpcasters, Loaded, InOrder, Below;
    violations := [];
    NothingCompared(a, b);
    for i := 0 to |us|
      invariant forall v :: v in violations <==> EdgeFaults(a, b, us[..i], v)
      invariant InOrder(violations)
    {
      assert us[..i + 1] == us[..i] + [us[i]] && us[i] in us;
      var more := CompareUpcaster(a, b, current, was, now, us[i]);
      EdgesInOrder(a, b, us[..i], us[i], violations, more);
      violations := violations + more;
    }
    assert us[..|us|] == us;
  }

  lemma NothingCompared(a: Tree, b: Tree)
    ensures InOrder([]) && forall v :: !EdgeFaults(a, b, [], v)
  {
  }

  // ---------------------------------------------------------------- the check

  function UpcasterIdKey(u: Upcaster): Key { TextKey(u.id) }

  lemma SortedEntries(schemas: seq<SchemaEntry>)
    requires DistinctVersions(schemas)
    ensures var sorted := SortBy(schemas, EntryKey);
            (forall e :: e in sorted <==> e in schemas) && EntriesAscending(sorted)
  {
    hide SortBy, Before, PairBelow;
    var sorted := SortBy(schemas, EntryKey);
    forall i, j | 0 <= i < j < |schemas|
      ensures EntryKey(schemas[i]) != EntryKey(schemas[j])
    {
      IdKeyInjective(RefKey(schemas[i].ref), RefKey(schemas[j].ref));
    }
    SortByDistinct(schemas, EntryKey);
    SortByKeeps(schemas, EntryKey);
    forall i, j | 0 <= i < j < |sorted|
      ensures PairBelow(RefKey(sorted[i].ref), RefKey(sorted[j].ref))
    {
      BeforeTotal(EntryKey(sorted[i]), EntryKey(sorted[j]));
      PairOrder(RefKey(sorted[i].ref), RefKey(sorted[j].ref));
    }
    forall e: SchemaEntry
      ensures e in sorted <==> e in schemas
    {
      SortByMember(schemas, EntryKey, e);
    }
  }

  lemma IdKeyInjective(a: VersionId, b: VersionId)
    ensures IdKey(a) == IdKey(b) ==> a == b
  {
    if IdKey(a) == IdKey(b) {
      TextKeyPrefixFree(a.0, TextKey(a.1), b.0, TextKey(b.1));
      TextKeyInjective(a.1, b.1);
    }
  }

  lemma SortedUpcasters(us: seq<Upcaster>)
    requires DistinctIds(us)
    ensures var sorted := SortBy(us, UpcasterIdKey);
            DistinctIds(sorted) && SortedIds(sorted) && (forall u :: u in sorted <==> u in us)
  {
    hide SortBy, Below, Before;
    var sorted := SortBy(us, UpcasterIdKey);
    forall i, j | 0 <= i < j < |us|
      ensures UpcasterIdKey(us[i]) != UpcasterIdKey(us[j])
    {
      TextKeyInjective(us[i].id, us[j].id);
    }
    SortByDistinct(us, UpcasterIdKey);
    SortByKeeps(us, UpcasterIdKey);
    forall u: Upcaster
      ensures u in sorted <==> u in us
    {
      SortByMember(us, UpcasterIdKey, u);
    }
    forall i, j | 0 <= i < j < |sorted|
      ensures sorted[i].id != sorted[j].id && Below(sorted[i].id, sorted[j].id)
    {
      assert UpcasterIdKey(sorted[i]) != UpcasterIdKey(sorted[j]);
      BeforeTotal(UpcasterIdKey(sorted[i]), UpcasterIdKey(sorted[j]));
      TextKeysOrder(sorted[i].id, sorted[j].id);
    }
  }

  lemma ReconciledAreRepaired(w: World, a: Tree, b: Tree, keys: seq<VersionId>)
    requires Reconciles(w, a, b, a.catalog.schemas, keys)
    requires forall e | e in a.catalog.schemas :: SchemaKept(w, a, b, e)
    ensures (set k | k in keys) == Repaired(a, b)
  {
  }

  lemma ReconcilesSame(w: World, a: Tree, b: Tree, x: seq<SchemaEntry>, y: seq<SchemaEntry>, keys: seq<VersionId>)
    requires Reconciles(w, a, b, x, keys) && forall e :: e in x <==> e in y
    ensures Reconciles(w, a, b, y, keys)
  {
  }

  lemma AddedCount<T>(a: set<T>, b: set<T>)
    requires a <= b
    ensures |b - a| == |b| - |a|
  {
  }

  lemma VersionCount(indexed: map<VersionId, SchemaEntry>, schemas: seq<SchemaEntry>)
    requires IndexesSchemas(indexed, schemas)
    ensures |VersionsOf(schemas)| == |schemas|
  {
  }

  lemma IdCount(indexed: map<string, Upcaster>, us: seq<Upcaster>)
    requires IndexesUpcasters(indexed, us)
    ensures |IdsOf(us)| == |us|
  {
  }

  lemma KeptKeys(w: World, a: Tree, b: Tree)
    requires Passes(w, a, b)
    ensures VersionIds(a.catalog) <= VersionIds(b.catalog) && UpcasterIds(a.catalog) <= UpcasterIds(b.catalog)
  {
  }

  /** The result of a passing check. */
  ghost predicate Reports(w: World, a: Tree, b: Tree, r: Outcome)
  {
    && r.Passed?
    && r.preservedSchemas == |a.catalog.schemas|
    && r.addedSchemas == |b.catalog.schemas| - |a.catalog.schemas|
    && r.preservedUpcasters == |a.catalog.upcasters|
    && r.addedUpcasters == |b.catalog.upcasters| - |a.catalog.upcasters|
    && (set k | k in r.reconciled) == Repaired(a, b)
    && StrictlyAscending(r.reconciled)
  }

  lemma ReportsWhen(w: World, a: Tree, b: Tree, r: Outcome,
                    wasSchemas: map<VersionId, SchemaEntry>, nowSchemas: map<VersionId, SchemaEntry>,
                    wasUpcasters: map<string, Upcaster>, nowUpcasters: map<string, Upcaster>)
    requires Passes(w, a, b) && r.Passed? && Reconciles(w, a, b, a.catalog.schemas, r.reconciled)
    requires IndexesSchemas(wasSchemas, a.catalog.schemas) && IndexesSchemas(nowSchemas, b.catalog.schemas)
    requires IndexesUpcasters(wasUpcasters, a.catalog.upcasters) && IndexesUpcasters(nowUpcasters, b.catalog.upcasters)
    requires r.preservedSchemas == |wasSchemas| && r.addedSchemas == |nowSchemas.Keys - wasSchemas.Keys|
    requires r.preservedUpcasters == |wasUpcasters| && r.addedUpcasters == |nowUpcasters.Keys - wasUpcasters.Keys|
    ensures Reports(w, a, b, r)
  {
    hide WellFormed, UpcastersHold, UpcasterKept, StrictlyAscending;
    KeptKeys(w, a, b);
    VersionCount(wasSchemas, a.catalog.schemas);
    VersionCount(nowSchemas, b.catalog.schemas);
    IdCount(wasUpcasters, a.catalog.upcasters);
    IdCount(nowUpcasters, b.catalog.upcasters);
    AddedCount(wasSchemas.Keys, nowSchemas.Keys);
    AddedCount(wasUpcasters.Keys, nowUpcasters.Keys);
    ReconciledAreRepaired(w, a, b, r.reconciled);
    hide Reconciles, IndexesSchemas, IndexesUpcasters, Repaired, SchemaKept;
  }

  lemma LoadedSame(t: Tree, x: seq<Upcaster>, y: seq<Upcaster>, loaded: map<string, map<nat, Bytes>>, w: World)
    requires forall u :: u in x <==> u in y
    ensures Loaded(t, x, loaded) ==> Loaded(t, y, loaded)
    ensures AllHold(w, t, x) <==> AllHold(w, t, y)
    ensures (forall u | u in x :: UpcasterForm(u)) <==> (forall u | u in y :: UpcasterForm(u))
  {
  }

  /**
   * `check_schema_immutability`: it passes exactly when the declarative relation holds, raises at
   * once exactly on the malformed inputs, and otherwise lists every violation there is and no other,
   * in the order of the source's loops.
   */
  method Check(w: World, a: Tree, b: Tree) returns (r: Outcome)
    ensures r.Malformed? <==> RaisesAtOnce(a, b)
    ensures r.Passed? <==> Passes(w, a, b)
    ensures r.Passed? ==> Reports(w, a, b, r)
    ensures r.Violated? ==> ReportsAll(w, a, b, r.violations)
  {
    hide WellFormed, DistinctVersions, DistinctIds, UpcasterForm, IndexesSchemas, IndexesUpcasters, SchemaKept,
         UpcasterKept, AllHold, Loaded, ReportsAll, Reconciles, Reports, Passes, UpcastersHold, SameWhereRead, SortBy,
         EntriesAscending, Readable;
    FormedIsWellFormed(a);
    FormedIsWellFormed(b);
    var wasSchemas := IndexSchemas(a.catalog.schemas);
    if wasSchemas.None? { RaisingFails(w, a, b); return Malformed; }
    var nowSchemas := IndexSchemas(b.catalog.schemas);
    if nowSchemas.None? { RaisingFails(w, a, b); return Malformed; }
    var wasUpcasters := IndexUpcasters(a.catalog.upcasters);
    if wasUpcasters.None? { RaisingFails(w, a, b); return Malformed; }
    var nowUpcasters := IndexUpcasters(b.catalog.upcasters);
    if nowUpcasters.None? { RaisingFails(w, a, b); return Malformed; }
    r := Compare(w, a, b, wasSchemas.value, nowSchemas.value, wasUpcasters.value, nowUpcasters.value);
  }

  lemma RaisingFails(w: World, a: Tree, b: Tree)
    requires RaisesAtOnce(a, b)
    ensures !Passes(w, a, b)
  {
  }

  /** The check once both catalogs are indexed. */
  method Compare(w: World, a: Tree, b: Tree,
                 wasSchemas: map<VersionId, SchemaEntry>, nowSchemas: map<VersionId, SchemaEntry>,
                 wasUpcasters: map<string, Upcaster>, nowUpcasters: map<string, Upcaster>) returns (r: Outcome)
    requires DistinctVersions(a.catalog.schemas) && DistinctVersions(b.catalog.schemas)
    requires DistinctIds(a.catalog.upcasters) && DistinctIds(b.catalog.upcasters)
    requires IndexesSchemas(wasSchemas, a.catalog.schemas) && IndexesSchemas(nowSchemas, b.catalog.schemas)
    requires IndexesUpcasters(wasUpcasters, a.catalog.upcasters) && IndexesUpcasters(nowUpcasters, b.catalog.upcasters)
    ensures r.Malformed? <==> RaisesAtOnce(a, b)
    ensures r.Passed? <==> Passes(w, a, b)
    ensures r.Passed? ==> Reports(w, a, b, r)
    ensures r.Violated? ==> ReportsAll(w, a, b, r.violations)
  {
    hide WellFormed, DistinctVersions, DistinctIds, UpcasterForm, IndexesSchemas, IndexesUpcasters, SchemaKept,
         UpcasterKept, AllHold, Loaded, Reconciles, Reports, Passes, UpcastersHold, SameWhereRead, SortBy,
         EntriesAscending, Readable;
    FormedIsWellFormed(a);
    FormedIsWellFormed(b);
    SortedUpcasters(a.catalog.upcasters);
    SortedUpcasters(b.catalog.upcasters);
    SortedEntries(a.catalog.schemas);
    var oldSorted, newSorted := SortBy(a.catalog.upcasters, UpcasterIdKey), SortBy(b.catalog.upcasters, UpcasterIdKey);
    var entries := SortBy(a.catalog.schemas, EntryKey);
    var oldOk, v1, was := LoadAll(w, a, false, oldSorted);
    LoadedSame(a, oldSorted, a.catalog.upcasters, was, w);
    if !oldOk { RaisingFails(w, a, b); return Malformed; }
    var newOk, v2, now := LoadAll(w, b, true, newSorted);
    LoadedSame(b, newSorted, b.catalog.upcasters, now, w);
    if !newOk { RaisingFails(w, a, b); return Malformed; }
    assert WellFormed(a.catalog) && WellFormed(b.catalog);
    var ok, v3, reconciled := CompareSchemas(w, a, b, nowSchemas, entries);
    if !ok { RaisingFails(w, a, b); return Malformed; }
    var v4 := CompareUpcasters(a, b, nowUpcasters, was, now, oldSorted);
    ReconcilesSame(w, a, b, entries, a.catalog.schemas, reconciled);
    var violations := v1 + v2 + v3 + v4;
    assert !RaisesAtOnce(a, b);
    AllReported(w, a, b, oldSorted, newSorted, entries, v1, v2, v3, v4);
    NoneMeansPasses(w, a, b);
    if violations != [] {
      assert violations[0] in violations;
    }
    if violations != [] {
      return Violated(violations);
    }
    r := Passed(|wasSchemas|, |nowSchemas.Keys - wasSchemas.Keys|,
                |wasUpcasters|, |nowUpcasters.Keys - wasUpcasters.Keys|, reconciled);
    ReportsWhen(w, a, b, r, wasSchemas, nowSchemas, wasUpcasters, nowUpcasters);
  }
}
