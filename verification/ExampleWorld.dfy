/** One concrete world: an injective catalog encoding and a digest without collisions. */
module ExampleWorlds {
  import opened Catalogs
  import opened Registry

  // ---------------------------------------------------------------- a document encoding

  /** Nested lists of texts, the shape of the catalog document. */
  datatype Doc = Leaf(text: string) | Node(items: seq<Doc>)

  function EncodeText(s: string): (r: Bytes)
  {
    if s == "" then [0]
    else
      var c := s[0] as int;
      [1, c / 65536, c / 256 % 256, c % 256] + EncodeText(s[1..])
  }

  function EncodeDoc(d: Doc): (r: Bytes)
    decreases d
  {
    match d
    case Leaf(text) => [0] + EncodeText(text)
    case Node(items) => [1] + EncodeItems(items)
  }

  function EncodeItems(items: seq<Doc>): (r: Bytes)
    decreases items
  {
    if items == [] then [0] else [1] + EncodeDoc(items[0]) + EncodeItems(items[1..])
  }

  lemma SameChar(a: nat, b: nat)
    requires a / 65536 == b / 65536 && a / 256 % 256 == b / 256 % 256 && a % 256 == b % 256
    ensures a == b
  {
  }

  lemma {:induction false} TextPrefixFree(a: string, x: Bytes, b: string, y: Bytes)
    requires EncodeText(a) + x == EncodeText(b) + y
    ensures a == b && x == y
  {
    var k, l := EncodeText(a) + x, EncodeText(b) + y;
    assert k[0] == l[0];
    if a != "" && b != "" {
      assert k[1] == l[1] && k[2] == l[2] && k[3] == l[3];
      SameChar(a[0] as int, b[0] as int);
      assert k[4..] == EncodeText(a[1..]) + x && l[4..] == EncodeText(b[1..]) + y;
      TextPrefixFree(a[1..], x, b[1..], y);
      assert a == [a[0]] + a[1..] && b == [b[0]] + b[1..];
    } else {
      assert k[1..] == x && l[1..] == y;
    }
  }

  lemma {:induction false} DocPrefixFree(a: Doc, x: Bytes, b: Doc, y: Bytes)
    requires EncodeDoc(a) + x == EncodeDoc(b) + y
    ensures a == b && x == y
    decreases a
  {
    var k, l := EncodeDoc(a) + x, EncodeDoc(b) + y;
    assert k[0] == l[0];
    match a
    case Leaf(s) =>
      assert k[1..] == EncodeText(s) + x && l[1..] == EncodeText(b.text) + y;
      TextPrefixFree(s, x, b.text, y);
    case Node(items) =>
      assert k[1..] == EncodeItems(items) + x && l[1..] == EncodeItems(b.items) + y;
      ItemsPrefixFree(items, x, b.items, y);
  }

  lemma {:induction false} ItemsPrefixFree(a: seq<Doc>, x: Bytes, b: seq<Doc>, y: Bytes)
    requires EncodeItems(a) + x == EncodeItems(b) + y
    ensures a == b && x == y
    decreases a
  {
    var k, l := EncodeItems(a) + x, EncodeItems(b) + y;
    assert k[0] == l[0];
    if a != [] && b != [] {
      var p, q := EncodeItems(a[1..]) + x, EncodeItems(b[1..]) + y;
      assert k[1..] == EncodeDoc(a[0]) + p && l[1..] == EncodeDoc(b[0]) + q;
      DocPrefixFree(a[0], p, b[0], q);
      ItemsPrefixFree(a[1..], x, b[1..], y);
      assert a == [a[0]] + a[1..] && b == [b[0]] + b[1..];
    } else {
      assert k[1..] == x && l[1..] == y;
    }
  }

  // ---------------------------------------------------------------- catalogs as documents

  function RefDoc(r: SchemaRef): Doc { Node([Leaf(r.schemaId), Leaf(r.version), Leaf(r.artifactId), Leaf(r.sha256)]) }

  function MetaDoc(m: Metadata): Doc
  {
    Node([Leaf(m.wireVersion), Leaf(m.owner), Leaf(m.canonicalization), Leaf(m.projection), Leaf(m.softwareMin),
          Leaf(m.softwareMax)])
  }

  function ModeDoc(m: Mode): Doc
  {
    match m
    case NoCompatibility => Leaf("NONE")
    case Backward => Leaf("BACKWARD")
    case Forward => Leaf("FORWARD")
    case Full => Leaf("FULL")
  }

  function RefDocs(rs: seq<SchemaRef>): seq<Doc> { seq(|rs|, i requires 0 <= i < |rs| => RefDoc(rs[i])) }

  function EntryDoc(e: SchemaEntry): Doc
  {
    Node([RefDoc(e.ref), Leaf(e.documentId), Leaf(e.artifactPath), MetaDoc(e.meta), ModeDoc(e.mode),
          Node(RefDocs(e.predecessors))])
  }

  function VectorDoc(v: GoldenVector): Doc
  {
    Node([Leaf(v.inputPath), Leaf(v.inputSha), Leaf(v.outputPath), Leaf(v.outputSha)])
  }

  function VectorDocs(vs: seq<GoldenVector>): seq<Doc> { seq(|vs|, i requires 0 <= i < |vs| => VectorDoc(vs[i])) }

  function UpcasterDoc(u: Upcaster): Doc
  {
    Node([Leaf(u.id), RefDoc(u.source), RefDoc(u.target), Leaf(u.codeId), Leaf(u.codePath), Leaf(u.codeSha),
          Leaf(u.runtimeId), Leaf(u.runtimePath), Leaf(u.runtimeSha), Node(VectorDocs(u.vectors))])
  }

  function EntryDocs(es: seq<SchemaEntry>): seq<Doc> { seq(|es|, i requires 0 <= i < |es| => EntryDoc(es[i])) }

  function UpcasterDocs(us: seq<Upcaster>): seq<Doc> { seq(|us|, i requires 0 <= i < |us| => UpcasterDoc(us[i])) }

  function CatalogDoc(c: Catalog): Doc { Node([Node(EntryDocs(c.schemas)), Node(UpcasterDocs(c.upcasters))]) }

  lemma RefDocInjective(a: SchemaRef, b: SchemaRef)
    ensures RefDoc(a) == RefDoc(b) ==> a == b
  {
    var x, y := RefDoc(a).items, RefDoc(b).items;
    assert x == y ==> x[0] == y[0] && x[1] == y[1] && x[2] == y[2] && x[3] == y[3];
  }

  lemma MetaDocInjective(a: Metadata, b: Metadata)
    ensures MetaDoc(a) == MetaDoc(b) ==> a == b
  {
    var x, y := MetaDoc(a).items, MetaDoc(b).items;
    assert x == y ==> x[0] == y[0] && x[1] == y[1] && x[2] == y[2] && x[3] == y[3] && x[4] == y[4] && x[5] == y[5];
  }

  lemma ModeDocInjective(a: Mode, b: Mode)
    ensures ModeDoc(a) == ModeDoc(b) ==> a == b
  {
    assert |"NONE"| == 4 && |"BACKWARD"| == 8 && |"FORWARD"| == 7 && "FULL"[0] == 'F' && "NONE"[0] == 'N';
  }

  lemma RefDocsInjective(a: seq<SchemaRef>, b: seq<SchemaRef>)
    ensures RefDocs(a) == RefDocs(b) ==> a == b
  {
    if RefDocs(a) == RefDocs(b) {
      assert |RefDocs(a)| == |a| && |RefDocs(b)| == |b|;
      forall i | 0 <= i < |a|
        ensures a[i] == b[i]
      {
        assert RefDocs(a)[i] == RefDocs(b)[i];
        RefDocInjective(a[i], b[i]);
      }
    }
  }

  lemma EntryDocInjective(a: SchemaEntry, b: SchemaEntry)
    ensures EntryDoc(a) == EntryDoc(b) ==> a == b
  {
    hide RefDoc, MetaDoc, ModeDoc, RefDocs;
    RefDocInjective(a.ref, b.ref);
    MetaDocInjective(a.meta, b.meta);
    ModeDocInjective(a.mode, b.mode);
    RefDocsInjective(a.predecessors, b.predecessors);
    var x, y := EntryDoc(a).items, EntryDoc(b).items;
    assert x == y ==> x[0] == y[0] && x[1] == y[1] && x[2] == y[2] && x[3] == y[3] && x[4] == y[4] && x[5] == y[5];
  }

  lemma EntryDocsInjective(a: seq<SchemaEntry>, b: seq<SchemaEntry>)
    ensures EntryDocs(a) == EntryDocs(b) ==> a == b
  {
    hide EntryDoc;
    if EntryDocs(a) == EntryDocs(b) {
      assert |EntryDocs(a)| == |a| && |EntryDocs(b)| == |b|;
      forall i | 0 <= i < |a|
        ensures a[i] == b[i]
      {
        assert EntryDocs(a)[i] == EntryDocs(b)[i];
        EntryDocInjective(a[i], b[i]);
      }
    }
  }

  lemma VectorDocInjective(a: GoldenVector, b: GoldenVector)
    ensures VectorDoc(a) == VectorDoc(b) ==> a == b
  {
    var x, y := VectorDoc(a).items, VectorDoc(b).items;
    assert x == y ==> x[0] == y[0] && x[1] == y[1] && x[2] == y[2] && x[3] == y[3];
  }

  lemma VectorDocsInjective(a: seq<GoldenVector>, b: seq<GoldenVector>)
    ensures VectorDocs(a) == VectorDocs(b) ==> a == b
  {
    hide VectorDoc;
    if VectorDocs(a) == VectorDocs(b) {
      assert |VectorDocs(a)| == |a| && |VectorDocs(b)| == |b|;
      forall i | 0 <= i < |a|
        ensures a[i] == b[i]
      {
        assert VectorDocs(a)[i] == VectorDocs(b)[i];
        VectorDocInjective(a[i], b[i]);
      }
    }
  }

  lemma UpcasterDocInjective(a: Upcaster, b: Upcaster)
    ensures UpcasterDoc(a) == UpcasterDoc(b) ==> a == b
  {
    hide RefDoc, VectorDocs;
    RefDocInjective(a.source, b.source);
    RefDocInjective(a.target, b.target);
    VectorDocsInjective(a.vectors, b.vectors);
    var x, y := UpcasterDoc(a).items, UpcasterDoc(b).items;
    assert x == y ==> x[0] == y[0] && x[1] == y[1] && x[2] == y[2] && x[3] == y[3] && x[4] == y[4];
    assert x == y ==> x[5] == y[5] && x[6] == y[6] && x[7] == y[7] && x[8] == y[8] && x[9] == y[9];
  }

  lemma UpcasterDocsInjective(a: seq<Upcaster>, b: seq<Upcaster>)
    ensures UpcasterDocs(a) == UpcasterDocs(b) ==> a == b
  {
    hide UpcasterDoc;
    if UpcasterDocs(a) == UpcasterDocs(b) {
      assert |UpcasterDocs(a)| == |a| && |UpcasterDocs(b)| == |b|;
      forall i | 0 <= i < |a|
        ensures a[i] == b[i]
      {
        assert UpcasterDocs(a)[i] == UpcasterDocs(b)[i];
        UpcasterDocInjective(a[i], b[i]);
      }
    }
  }

  lemma CatalogDocInjective(a: Catalog, b: Catalog)
    ensures CatalogDoc(a) == CatalogDoc(b) ==> a == b
  {
    hide EntryDocs, UpcasterDocs;
    EntryDocsInjective(a.schemas, b.schemas);
    UpcasterDocsInjective(a.upcasters, b.upcasters);
    var x, y := CatalogDoc(a).items, CatalogDoc(b).items;
    assert x == y ==> x[0] == y[0] && x[1] == y[1];
  }

  function EncodeCatalog(c: Catalog): Bytes { EncodeDoc(CatalogDoc(c)) }

  lemma EncodeCatalogInjective(a: Catalog, b: Catalog)
    ensures EncodeCatalog(a) == EncodeCatalog(b) ==> a == b
  {
    hide EncodeDoc, CatalogDoc;
    if EncodeCatalog(a) == EncodeCatalog(b) {
      DocPrefixFree(CatalogDoc(a), [], CatalogDoc(b), []);
      CatalogDocInjective(a, b);
    }
  }

  // ---------------------------------------------------------------- a digest

  function HexChar(n: int): char
    requires 0 <= n < 16
  {
    if n < 10 then '0' + n as char else 'a' + (n - 10) as char
  }

  /** One-byte contents get 64 lower-case hexadecimal characters, everything else some other text. */
  function ByteDigest(b: Bytes): Digest
  {
    if |b| == 1 then seq(62, _ => '0') + [HexChar(b[0] / 16), HexChar(b[0] % 16)]
    else "x" + seq(|b|, i requires 0 <= i < |b| => b[i] as char)
  }

  lemma DigestIsHex(n: Byte)
    ensures HexDigest(ByteDigest([n]))
  {
    var d := ByteDigest([n]);
    assert d[62] == HexChar(n / 16) && d[63] == HexChar(n % 16);
    assert forall i | 0 <= i < 62 :: d[i] == '0';
  }

  lemma DigestInjective(a: Bytes, b: Bytes)
    ensures ByteDigest(a) == ByteDigest(b) ==> a == b
  {
    if ByteDigest(a) == ByteDigest(b) {
      var x, y := ByteDigest(a), ByteDigest(b);
      assert x[0] == y[0];
      if |a| == 1 && |b| == 1 {
        assert x[62] == y[62] && x[63] == y[63];
        assert a[0] / 16 == b[0] / 16 && a[0] % 16 == b[0] % 16;
        assert a == [a[0]] && b == [b[0]];
      } else if |a| != 1 && |b| != 1 {
        assert |x| == |a| + 1 && |y| == |b| + 1;
        forall i | 0 <= i < |a|
          ensures a[i] == b[i]
        {
          assert x[i + 1] == a[i] as char && y[i + 1] == b[i] as char;
        }
      }
    }
  }

  /** A world with this digest and encoding, in which documents are accepted as the example says. */
  function Example(accepts: (Catalog, Files) -> bool): World
  {
    World(ByteDigest, EncodeCatalog, (d: Digest) => d, (role: string, d: Digest) => role + d, accepts,
          (c: Catalog, files: Files) => true)
  }

  /** Collision freedom is met: the results that assume it speak about something. */
  lemma ExampleIsCollisionFree(accepts: (Catalog, Files) -> bool)
    ensures CollisionFree(Example(accepts))
  {
    hide ByteDigest, EncodeCatalog;
    var w := Example(accepts);
    forall a: Bytes, b: Bytes {:trigger w.sha(a), w.sha(b)} | w.sha(a) == w.sha(b)
      ensures a == b
    {
      DigestInjective(a, b);
    }
    forall a: Catalog, b: Catalog {:trigger w.encode(a), w.encode(b)} | w.encode(a) == w.encode(b)
      ensures a == b
    {
      EncodeCatalogInjective(a, b);
    }
  }
}
