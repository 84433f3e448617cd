/** What the blob-stream reader accepts: exactly the framed streams, when sizes are canonical decimals. */
module BlobFrames {
  import opened Text
  import opened Catalogs
  import opened BlobStream

  /** What `git cat-file --batch` writes for one blob. */
  function Header(id: Bytes, size: nat): Bytes { Join([id, BLOB, Decimal(size)], SPACE) }

  function Frame(id: Bytes, content: Bytes): Bytes
  {
    Header(id, |content|) + [NEWLINE] + content + [NEWLINE]
  }

  function Frames(ids: seq<Bytes>, contents: seq<Bytes>): (r: Bytes)
    requires |ids| == |contents|
  {
    if ids == [] then [] else Frame(ids[0], contents[0]) + Frames(ids[1..], contents[1..])
  }

  predicate PlainId(id: Bytes) { SPACE !in id && NEWLINE !in id }

  predicate PlainIds(ids: seq<Bytes>) { forall i | 0 <= i < |ids| :: PlainId(ids[i]) }

  // ---------------------------------------------------------------- find and slices

  lemma {:induction false} FindsFirst(s: Bytes, b: Byte, i: nat, k: nat)
    requires i <= k < |s| && s[k] == b && forall j | i <= j < k :: s[j] != b
    ensures FindFrom(s, b, i) == k
    decreases k - i
  {
    if i < k {
      FindsFirst(s, b, i + 1, k);
    }
  }

  lemma {:induction false} FoundIsFirst(s: Bytes, b: Byte, i: nat)
    requires i <= |s| && FindFrom(s, b, i) >= 0
    ensures var k := FindFrom(s, b, i); s[k] == b && forall j | i <= j < k :: s[j] != b
    decreases |s| - i
  {
    if s[i] != b {
      FoundIsFirst(s, b, i + 1);
    }
  }

  lemma SliceInside(s: Bytes, low: nat, high: nat)
    requires low <= high <= |s|
    ensures Slice(s, low, high) == s[low..high]
  {
  }

  lemma DecimalIsPlain(n: nat)
    ensures Decimal(n) != [] && SPACE !in Decimal(n) && NEWLINE !in Decimal(n)
  {
  }

  // ---------------------------------------------------------------- reading a frame back

  lemma JoinThree(a: Bytes, b: Bytes, c: Bytes)
    ensures Join([a, b, c], SPACE) == a + [SPACE] + (b + [SPACE] + c)
  {
    assert [a, b, c][1..] == [b, c] && [b, c][1..] == [c];
    assert Join([b, c], SPACE) == b + [SPACE] + c;
  }

  lemma HeaderSplits(id: Bytes, size: nat)
    requires PlainId(id)
    ensures Split(Header(id, size), SPACE) == [id, BLOB, Decimal(size)]
    ensures NEWLINE !in Header(id, size)
  {
    hide Split, Join, Decimal, Digits;
    DecimalIsPlain(size);
    var parts := [id, BLOB, Decimal(size)];
    assert SPACE !in BLOB && NEWLINE !in BLOB;
    assert forall i | 0 <= i < 3 :: SPACE !in parts[i];
    SplitJoin(parts, SPACE);
    JoinThree(id, BLOB, Decimal(size));
  }

  lemma MiddleSlice(x: Bytes, y: Bytes, z: Bytes)
    ensures Slice(x + y + z, |x|, |x| + |y|) == y
  {
  }

  lemma FindAfter(before: Bytes, header: Bytes, after: Bytes)
    requires NEWLINE !in header
    ensures Find(before + header + [NEWLINE] + after, NEWLINE, |before|) == |before| + |header|
  {
    var s := before + header + [NEWLINE] + after;
    var e := |before| + |header|;
    assert forall j | |before| <= j < e :: s[j] == header[j - |before|];
    FindsFirst(s, NEWLINE, |before|, e);
  }

  /** Where the pieces of a frame lie in the response. */
  lemma FrameLies(before: Bytes, header: Bytes, content: Bytes, after: Bytes)
    requires NEWLINE !in header
    ensures var s := before + (header + [NEWLINE] + content + [NEWLINE]) + after;
            var e := |before| + |header|;
            && Find(s, NEWLINE, |before|) == e
            && Slice(s, |before|, e) == header
            && e + 1 + |content| < |s|
            && Slice(s, e + 1, e + 1 + |content|) == content
            && Slice(s, e + 1 + |content|, e + 1 + |content| + 1) == [NEWLINE]
  {
    hide Find, Slice;
    var s := before + (header + [NEWLINE] + content + [NEWLINE]) + after;
    FindAfter(before, header, content + [NEWLINE] + after);
    assert s == before + header + [NEWLINE] + (content + [NEWLINE] + after);
    MiddleSlice(before, header, [NEWLINE] + content + [NEWLINE] + after);
    assert s == before + header + ([NEWLINE] + content + [NEWLINE] + after);
    var start := before + header + [NEWLINE];
    MiddleSlice(start, content, [NEWLINE] + after);
    assert s == start + content + ([NEWLINE] + after);
    MiddleSlice(start + content, [NEWLINE], after);
    assert s == start + content + [NEWLINE] + after;
  }

  function TakenOf(content: Bytes, next: int): Taken { Taken(Decimal(|content|), |content|, content, next) }

  /** The reader takes exactly one frame, whatever bytes its content holds. */
  lemma TakesFrame(before: Bytes, id: Bytes, content: Bytes, after: Bytes)
    requires PlainId(id)
    ensures Take(before + Frame(id, content) + after, |before|, id)
         == Some(TakenOf(content, |before| + |Frame(id, content)|))
  {
    hide PyInt, Slice, Find, Split, Header, Decimal;
    HeaderSplits(id, |content|);
    FrameLies(before, Header(id, |content|), content, after);
    PyIntDecimal(|content|);
  }

  function Takens(ids: seq<Bytes>, contents: seq<Bytes>, offset: nat): (r: seq<Taken>)
    requires |ids| == |contents|
    ensures |r| == |ids|
  {
    if ids == [] then []
    else
      var next := offset + |Frame(ids[0], contents[0])|;
      [TakenOf(contents[0], next)] + Takens(ids[1..], contents[1..], next)
  }

  lemma {:induction false} TakesFrames(before: Bytes, ids: seq<Bytes>, contents: seq<Bytes>)
    requires |ids| == |contents| && PlainIds(ids)
    ensures TakeAll(before + Frames(ids, contents), |before|, ids)
         == Some((Takens(ids, contents, |before|), |before| + |Frames(ids, contents)|))
    decreases |ids|
  {
    hide Take, Frame;
    if ids != [] {
      var first := Frame(ids[0], contents[0]);
      var rest := Frames(ids[1..], contents[1..]);
      TakesFrame(before, ids[0], contents[0], rest);
      TakesFrames(before + first, ids[1..], contents[1..]);
      assert before + Frames(ids, contents) == before + first + rest;
    }
  }

  lemma {:induction false} TakensAt(ids: seq<Bytes>, contents: seq<Bytes>, offset: nat, i: nat)
    requires |ids| == |contents| && i < |ids|
    ensures var t := Takens(ids, contents, offset)[i];
            t.content == contents[i] && t.size == |contents[i]| && t.token == Decimal(|contents[i]|)
  {
    hide Frame, Decimal;
    if i > 0 {
      TakensAt(ids[1..], contents[1..], offset + |Frame(ids[0], contents[0])|, i - 1);
    }
  }

  /**
   * Blob-stream round trip: for any tracked list and any contents, newlines and header-like bytes
   * included, reading the framed stream succeeds and gives each content and size back in order.
   */
  lemma StreamRoundTrip(tracked: seq<Tracked>, contents: seq<Bytes>)
    requires |tracked| == |contents| && PlainIds(Ids(tracked))
    ensures var response := Frames(Ids(tracked), contents);
            var r := TakeAll(response, 0, Ids(tracked));
            && r.Some? && r.value.1 == |response| && |r.value.0| == |tracked|
            && forall i | 0 <= i < |tracked| ::
                 && r.value.0[i].content == contents[i] && r.value.0[i].size == |contents[i]|
                 && CanonicalSize(r.value.0[i])
  {
    hide Take, Frame, Decimal, TakeAll;
    TakesFrames([], Ids(tracked), contents);
    assert [] + Frames(Ids(tracked), contents) == Frames(Ids(tracked), contents);
    forall i | 0 <= i < |tracked|
      ensures var t := Takens(Ids(tracked), contents, 0)[i];
              t.content == contents[i] && t.size == |contents[i]| && CanonicalSize(t)
    {
      TakensAt(Ids(tracked), contents, 0, i);
    }
  }

  // ---------------------------------------------------------------- what is accepted is framed

  /** The size token is the canonical decimal of a nonnegative size. */
  predicate CanonicalSize(t: Taken) { t.size >= 0 && t.token == Decimal(t.size) }

  lemma TakeHeader(response: Bytes, offset: nat, id: Bytes)
    requires Take(response, offset, id).Some? && offset <= |response|
    ensures var t := Take(response, offset, id).value;
            var headerEnd := Find(response, NEWLINE, offset);
            && offset <= headerEnd < |response|
            && response[headerEnd] == NEWLINE
            && response[offset..headerEnd] == Join([id, BLOB, t.token], SPACE)
            && NEWLINE !in id && SPACE !in id
            && t.next == headerEnd + 1 + t.size + 1
  {
    hide PyInt, Split;
    var headerEnd := Find(response, NEWLINE, offset);
    FoundIsFirst(response, NEWLINE, offset);
    SliceInside(response, offset, headerEnd);
    var line := response[offset..headerEnd];
    var header := Split(line, SPACE);
    JoinSplit(line, SPACE);
    assert header == [header[0], header[1], header[2]];
    assert SPACE !in header[0];
    assert header[1..][1..] == [header[2]];
    assert line == header[0] + [SPACE] + Join(header[1..], SPACE);
    assert forall i | 0 <= i < |header[0]| :: header[0][i] == line[i] == response[offset + i];
  }

  lemma TakeBody(response: Bytes, offset: nat, id: Bytes)
    requires Take(response, offset, id).Some? && offset <= |response|
    requires Take(response, offset, id).value.size >= 0
    ensures var t := Take(response, offset, id).value;
            var start := Find(response, NEWLINE, offset) + 1;
            && start + t.size < |response|
            && t.content == response[start..start + t.size]
            && response[start + t.size] == NEWLINE
  {
  }

  /** One accepted iteration with a canonical size has read exactly one frame. */
  lemma TakenIsFrame(response: Bytes, offset: nat, id: Bytes)
    requires Take(response, offset, id).Some? && offset <= |response|
    requires CanonicalSize(Take(response, offset, id).value)
    ensures var t := Take(response, offset, id).value;
            && offset <= t.next <= |response|
            && response[offset..t.next] == Frame(id, t.content)
            && |t.content| == t.size && PlainId(id)
  {
    hide Take, Find, Decimal, Split, Join;
    TakeHeader(response, offset, id);
    TakeBody(response, offset, id);
    var t := Take(response, offset, id).value;
    var e := Find(response, NEWLINE, offset);
    var start := e + 1;
    assert response[offset..t.next]
        == response[offset..e] + [response[e]] + response[start..start + t.size] + [response[start + t.size]];
  }

  ghost predicate CanonicalAll(taken: seq<Taken>) { forall i | 0 <= i < |taken| :: CanonicalSize(taken[i]) }

  function ContentsOf(taken: seq<Taken>): (r: seq<Bytes>)
    ensures |r| == |taken|
  {
    seq(|taken|, i requires 0 <= i < |taken| => taken[i].content)
  }

  lemma {:induction false} TakenAreFrames(response: Bytes, offset: nat, ids: seq<Bytes>)
    requires TakeAll(response, offset, ids).Some? && offset <= |response|
    requires CanonicalAll(TakeAll(response, offset, ids).value.0)
    ensures var r := TakeAll(response, offset, ids).value;
            && |r.0| == |ids| && offset <= r.1 <= |response| && PlainIds(ids)
            && response[offset..r.1] == Frames(ids, ContentsOf(r.0))
    decreases |ids|
  {
    hide Take, Frame, CanonicalSize;
    var r := TakeAll(response, offset, ids).value;
    if ids != [] {
      var t := Take(response, offset, ids[0]).value;
      var rest := TakeAll(response, t.next, ids[1..]).value;
      assert r.0[0] == t && r.0[1..] == rest.0;
      assert CanonicalSize(r.0[0]);
      assert forall i | 0 <= i < |rest.0| :: rest.0[i] == r.0[i + 1];
      TakenIsFrame(response, offset, ids[0]);
      TakenAreFrames(response, t.next, ids[1..]);
      assert ContentsOf(r.0)[1..] == ContentsOf(rest.0);
      assert response[offset..r.1] == response[offset..t.next] + response[t.next..r.1];
    }
  }

  /** Some contents for the tracked list frame to exactly this response. */
  ghost predicate Framed(tracked: seq<Tracked>, response: Bytes)
  {
    PlainIds(Ids(tracked)) &&
    exists contents: seq<Bytes> :: |contents| == |tracked| && response == Frames(Ids(tracked), contents)
  }

  ghost predicate Accepted(tracked: seq<Tracked>, response: Bytes)
  {
    var r := TakeAll(response, 0, Ids(tracked));
    r.Some? && r.value.1 == |response|
  }

  /**
   * An accepted response is exactly the concatenation of the tracked list's frames if and only if
   * every size token in it is a canonical decimal.
   */
  lemma AcceptedIsFramedIff(tracked: seq<Tracked>, response: Bytes)
    requires Accepted(tracked, response)
    ensures Framed(tracked, response) <==> CanonicalAll(TakeAll(response, 0, Ids(tracked)).value.0)
  {
    hide Take, Frame, CanonicalSize, TakeAll;
    var r := TakeAll(response, 0, Ids(tracked)).value;
    if Framed(tracked, response) {
      var contents: seq<Bytes> :| |contents| == |tracked| && response == Frames(Ids(tracked), contents);
      StreamRoundTrip(tracked, contents);
    }
    if CanonicalAll(r.0) {
      TakenAreFrames(response, 0, Ids(tracked));
      assert response[0..r.1] == response;
      assert |ContentsOf(r.0)| == |tracked|;
    }
  }

  /** Every framed response is accepted. */
  lemma FramedIsAccepted(tracked: seq<Tracked>, response: Bytes)
    requires Framed(tracked, response)
    ensures Accepted(tracked, response)
  {
    hide Take, Frame, CanonicalSize, TakeAll;
    var contents: seq<Bytes> :| |contents| == |tracked| && response == Frames(Ids(tracked), contents);
    StreamRoundTrip(tracked, contents);
  }

  // ---------------------------------------------------------------- why the condition is needed

  const ONE_BLOB := [Tracked("a", [49, 48, 48, 54, 52, 52], [97])]

  /** "a blob -1" and a newline, with no content frame at all. */
  const NEGATIVE: Bytes := [97, 32, 98, 108, 111, 98, 32, 45, 49, 10]

  lemma MinusOne()
    ensures PyInt([45, 49]) == Some(-1)
  {
    var s: Bytes := [45, 49];
    assert StripLeft(s) == s && StripRight(s) == s;
    assert s[1..] == [49];
    UnsignedDecimal([49]);
    var ds: seq<Digit> := [1];
    assert DigitBytes([49]) && FromBytes([49])[0] == 1;
    assert FromBytes([49]) == ds;
    assert ds[..0] == [];
    assert Value(ds) == Value(ds[..0]) * 10 + 1;
  }

  lemma NegativeLine()
    ensures Split(NEGATIVE[0..9], SPACE) == [[97], BLOB, [45, 49]]
  {
    var parts: seq<Bytes> := [[97], BLOB, [45, 49]];
    assert forall i | 0 <= i < 3 :: SPACE !in parts[i];
    SplitJoin(parts, SPACE);
    JoinThree([97], BLOB, [45, 49]);
    assert NEGATIVE[0..9] == Join(parts, SPACE);
  }

  /** A stream no `cat-file` writes is accepted: a size of -1 makes the header's own newline end the content. */
  lemma NegativeSizeIsAccepted()
    ensures Accepted(ONE_BLOB, NEGATIVE) && !Framed(ONE_BLOB, NEGATIVE)
    ensures TakeAll(NEGATIVE, 0, Ids(ONE_BLOB)).value.0[0].size == -1
  {
    assert Ids(ONE_BLOB) == [[97]];
    NegativeTaken();
    hide Take;
    assert TakeAll(NEGATIVE, 10, [[97]][1..]) == Some(([], 10));
    AcceptedIsFramedIff(ONE_BLOB, NEGATIVE);
    assert !CanonicalSize(TakeAll(NEGATIVE, 0, Ids(ONE_BLOB)).value.0[0]);
  }

  lemma NegativeTaken()
    ensures Take(NEGATIVE, 0, [97]) == Some(Taken([45, 49], -1, [], 10))
  {
    hide PyInt, Split;
    FindsFirst(NEGATIVE, NEWLINE, 0, 9);
    SliceInside(NEGATIVE, 0, 9);
    NegativeLine();
    MinusOne();
    SliceInside(NEGATIVE, 9, 10);
    assert NEGATIVE[9..10] == [NEWLINE];
  }
}
