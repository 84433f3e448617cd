/** Parsing the NUL-separated `git ls-tree -r -z` listing: `_tracked_files`. */
module TreeListing {
  import opened Text
  import opened Ordering
  import opened Catalogs
  import opened BlobStream

  const NUL: Byte := 0
  const TAB: Byte := 9
  const REGULAR: Bytes := [49, 48, 48, 54, 52, 52]     // 100644
  const EXECUTABLE: Bytes := [49, 48, 48, 55, 53, 53]  // 100755
  const SYMLINK: Bytes := [49, 50, 48, 48, 48, 48]     // 120000

  predicate SupportedMode(mode: Bytes) { mode == REGULAR || mode == EXECUTABLE || mode == SYMLINK }

  predicate Ascii(s: Bytes) { forall i | 0 <= i < |s| :: s[i] < 128 }

  /** `s.split(sep, 1)`: None when the separator does not occur. */
  function SplitOnce(s: Bytes, sep: Byte): (r: Option<(Bytes, Bytes)>)
    ensures r.Some? ==> s == r.value.0 + [sep] + r.value.1 && sep !in r.value.0
    ensures r.None? ==> sep !in s
  {
    if s == [] then None
    else if s[0] == sep then Some(([], s[1..]))
    else
      var rest := SplitOnce(s[1..], sep);
      if rest.None? then None else Some(([s[0]] + rest.value.0, rest.value.1))
  }

  lemma SplitOnceAt(head: Bytes, sep: Byte, tail: Bytes)
    requires sep !in head
    ensures SplitOnce(head + [sep] + tail, sep) == Some((head, tail))
  {
    var s := head + [sep] + tail;
    var r := SplitOnce(s, sep);
    assert s[|head|] == sep;
    assert r.Some?;
    var n := |r.value.0|;
    assert s[n] == sep;
    assert forall i | 0 <= i < |head| :: s[i] == head[i];
    assert forall i | 0 <= i < n :: s[i] == r.value.0[i];
    assert n == |head|;
    assert s[..n] == head == r.value.0;
    assert s[n + 1..] == tail == r.value.1;
  }

  /** One record: None where the source raises. `decode` is UTF-8 decoding. */
  function ParseRecord(decode: Bytes -> Option<string>, record: Bytes): (r: Option<Tracked>)
  {
    var halves := SplitOnce(record, TAB);
    if halves.None? then None
    else
      var modeAndRest := SplitOnce(halves.value.0, SPACE);
      if modeAndRest.None? then None
      else
        var typeAndId := SplitOnce(modeAndRest.value.1, SPACE);
        var path := decode(halves.value.1);
        if typeAndId.None? || path.None? then None
        else if typeAndId.value.0 != BLOB || !SupportedMode(modeAndRest.value.0) || !Ascii(typeAndId.value.1) then None
        else Some(Tracked(path.value, modeAndRest.value.0, typeAndId.value.1))
  }

  /** What `git ls-tree -z` writes for one entry. */
  function Record(t: Tracked, rawPath: Bytes): Bytes
  {
    t.mode + [SPACE] + (BLOB + [SPACE] + t.objectId) + [TAB] + rawPath
  }

  function PathOrder(t: Tracked): Key { TextKey(t.path) }

  /** The entries named by the records, in listing order. */
  ghost predicate Parses(decode: Bytes -> Option<string>, records: seq<Bytes>, tracked: seq<Tracked>)
  {
    |tracked| == |records| && forall i | 0 <= i < |records| :: ParseRecord(decode, records[i]) == Some(tracked[i])
  }

  ghost predicate AllParse(decode: Bytes -> Option<string>, records: seq<Bytes>)
  {
    forall i | 0 <= i < |records| :: ParseRecord(decode, records[i]).Some?
  }

  function NonEmpty(records: seq<Bytes>): (r: seq<Bytes>)
  {
    if records == [] then []
    else (if records[0] == [] then [] else [records[0]]) + NonEmpty(records[1..])
  }

  lemma {:induction false} NonEmptySnoc(records: seq<Bytes>, r: Bytes)
    ensures NonEmpty(records + [r]) == NonEmpty(records) + (if r == [] then [] else [r])
  {
    if records == [] {
      assert records + [r] == [r] && [r][1..] == [];
    } else {
      assert (records + [r])[1..] == records[1..] + [r];
      NonEmptySnoc(records[1..], r);
    }
  }

  lemma {:induction false} NonEmptyAppend(a: seq<Bytes>, b: seq<Bytes>)
    ensures NonEmpty(a + b) == NonEmpty(a) + NonEmpty(b)
  {
    if a == [] {
      assert a + b == b;
    } else {
      assert (a + b)[1..] == a[1..] + b;
      NonEmptyAppend(a[1..], b);
    }
  }

  /** `_tracked_files`: None where it raises. */
  method TrackedFiles(decode: Bytes -> Option<string>, raw: Bytes) returns (r: Option<seq<Tracked>>)
    ensures r.Some? <==> AllParse(decode, NonEmpty(Split(raw, NUL)))
    ensures r.Some? ==>
              exists tracked ::
                Parses(decode, NonEmpty(Split(raw, NUL)), tracked) && r.value == SortBy(tracked, PathOrder)
  {
    hide ParseRecord, SortBy, Split;
    var records := Split(raw, NUL);
    var tracked: seq<Tracked> := [];
    for i := 0 to |records|
      invariant Parses(decode, NonEmpty(records[..i]), tracked)
    {
      var record := records[i];
      assert records[..i + 1] == records[..i] + [record];
      NonEmptySnoc(records[..i], record);
      if record == [] {
        continue;
      }
      var parsed := ParseRecord(decode, record);
      if parsed.None? {
        assert records == records[..i + 1] + records[i + 1..];
        NonEmptyAppend(records[..i + 1], records[i + 1..]);
        assert NonEmpty(records)[|tracked|] == record;
        assert !AllParse(decode, NonEmpty(records));
        return None;
      }
      tracked := tracked + [parsed.value];
    }
    assert records[..|records|] == records;
    return Some(SortBy(tracked, PathOrder));
  }

  /** An entry whose record holds no separator it should not. */
  predicate PlainEntry(t: Tracked)
  {
    SupportedMode(t.mode) && TAB !in t.objectId && NUL !in t.objectId && Ascii(t.objectId)
  }

  lemma RecordParses(decode: Bytes -> Option<string>, t: Tracked, rawPath: Bytes)
    requires SupportedMode(t.mode) && TAB !in t.objectId && Ascii(t.objectId) && decode(rawPath) == Some(t.path)
    ensures ParseRecord(decode, Record(t, rawPath)) == Some(t)
  {
    hide SplitOnce;
    var rest := BLOB + [SPACE] + t.objectId;
    var metadata := t.mode + [SPACE] + rest;
    assert SPACE !in t.mode && TAB !in t.mode && TAB !in BLOB && SPACE !in BLOB;
    assert TAB !in metadata;
    SplitOnceAt(metadata, TAB, rawPath);
    SplitOnceAt(t.mode, SPACE, rest);
    SplitOnceAt(BLOB, SPACE, t.objectId);
  }

  /**
   * Which records are read, and as what: mode, "blob", object id, tab, path, with single spaces, one of
   * the three modes, an ASCII id and a decodable path.
   */
  lemma RecordMeans(decode: Bytes -> Option<string>, record: Bytes, t: Tracked)
    ensures ParseRecord(decode, record) == Some(t) <==>
              exists rawPath ::
                && record == t.mode + [SPACE] + BLOB + [SPACE] + t.objectId + [TAB] + rawPath
                && t.mode in {[49, 48, 48, 54, 52, 52], [49, 48, 48, 55, 53, 53], [49, 50, 48, 48, 48, 48]}
                && TAB !in t.objectId && Ascii(t.objectId) && decode(rawPath) == Some(t.path)
  {
    hide SplitOnce, Ascii;
    if ParseRecord(decode, record) == Some(t) {
      var halves := SplitOnce(record, TAB).value;
      var modeAndRest := SplitOnce(halves.0, SPACE).value;
      var typeAndId := SplitOnce(modeAndRest.1, SPACE).value;
      assert halves.0 == t.mode + [SPACE] + (BLOB + [SPACE] + t.objectId);
      assert TAB !in t.objectId by { SuffixMember(t.mode + [SPACE] + BLOB + [SPACE], t.objectId, TAB, halves.0); }
      assert record == t.mode + [SPACE] + BLOB + [SPACE] + t.objectId + [TAB] + halves.1;
    }
    if rawPath :|
      && record == t.mode + [SPACE] + BLOB + [SPACE] + t.objectId + [TAB] + rawPath
      && t.mode in {[49, 48, 48, 54, 52, 52], [49, 48, 48, 55, 53, 53], [49, 50, 48, 48, 48, 48]}
      && TAB !in t.objectId && Ascii(t.objectId) && decode(rawPath) == Some(t.path)
    {
      assert record == Record(t, rawPath);
      RecordParses(decode, t, rawPath);
    }
  }

  lemma SuffixMember(head: Bytes, tail: Bytes, b: Byte, whole: Bytes)
    requires whole == head + tail && b !in whole
    ensures b !in tail
  {
    assert forall i | 0 <= i < |tail| :: whole[|head| + i] == tail[i];
  }

  function Records(tracked: seq<Tracked>, rawPaths: seq<Bytes>): (r: seq<Bytes>)
    requires |tracked| == |rawPaths|
    ensures |r| == |tracked|
  {
    seq(|tracked|, i requires 0 <= i < |tracked| => Record(tracked[i], rawPaths[i]))
  }

  /** The listing: each record followed by a NUL. */
  function Listing(records: seq<Bytes>): Bytes { Join(records + [[]], NUL) }

  lemma {:induction false} AllNonEmpty(records: seq<Bytes>)
    requires forall i | 0 <= i < |records| :: records[i] != []
    ensures NonEmpty(records + [[]]) == records
  {
    NonEmptySnoc(records, []);
    AllNonEmptyKept(records);
  }

  lemma {:induction false} AllNonEmptyKept(records: seq<Bytes>)
    requires forall i | 0 <= i < |records| :: records[i] != []
    ensures NonEmpty(records) == records
  {
    if records != [] {
      AllNonEmptyKept(records[1..]);
      assert records == [records[0]] + records[1..];
    }
  }

  /** The listing of any entries splits back into their records, and every record parses to its entry. */
  lemma ListingRoundTrip(decode: Bytes -> Option<string>, tracked: seq<Tracked>, rawPaths: seq<Bytes>)
    requires |tracked| == |rawPaths|
    requires forall i | 0 <= i < |tracked| ::
               PlainEntry(tracked[i]) && NUL !in rawPaths[i] && decode(rawPaths[i]) == Some(tracked[i].path)
    ensures NonEmpty(Split(Listing(Records(tracked, rawPaths)), NUL)) == Records(tracked, rawPaths)
    ensures Parses(decode, Records(tracked, rawPaths), tracked)
  {
    hide ParseRecord, Split;
    var records := Records(tracked, rawPaths);
    forall i | 0 <= i < |records|
      ensures records[i] != [] && NUL !in records[i] && ParseRecord(decode, records[i]) == Some(tracked[i])
    {
      RecordIsPlain(tracked[i], rawPaths[i]);
      RecordParses(decode, tracked[i], rawPaths[i]);
    }
    hide Records, Record;
    SplitJoin(records + [[]], NUL);
    AllNonEmpty(records);
  }

  lemma RecordIsPlain(t: Tracked, rawPath: Bytes)
    requires PlainEntry(t) && NUL !in rawPath
    ensures NUL !in Record(t, rawPath) && Record(t, rawPath) != []
  {
  }
}
