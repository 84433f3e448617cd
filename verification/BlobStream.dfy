/** Reading `git cat-file --batch`: the length-prefixed blob stream of the release manifest. */
module BlobStream {
  import opened Text
  import opened Catalogs

  const NEWLINE: Byte := 10
  const SPACE: Byte := 32
  const UNDERSCORE: Byte := 95
  const PLUS: Byte := 43
  const MINUS: Byte := 45
  const BLOB: Bytes := [98, 108, 111, 98]

  datatype Tracked = Tracked(path: string, mode: Bytes, objectId: Bytes)

  datatype ReleaseFile = ReleaseFile(path: string, sha: Digest, size: int)

  // ---------------------------------------------------------------- Python's slices, find and int

  /** How a slice bound is read: negative bounds count from the end. */
  function Bound(i: int, n: nat): (r: nat)
    ensures r <= n
  {
    if i >= 0 then (if i <= n then i else n) else if n + i >= 0 then n + i else 0
  }

  function Slice(s: Bytes, low: int, high: int): (r: Bytes)
  {
    var a, b := Bound(low, |s|), Bound(high, |s|);
    if a <= b then s[a..b] else []
  }

  function FindFrom(s: Bytes, b: Byte, i: nat): (r: int)
    requires i <= |s|
    ensures r == -1 || i <= r < |s|
    decreases |s| - i
  {
    if i == |s| then -1 else if s[i] == b then i else FindFrom(s, b, i + 1)
  }

  function Find(s: Bytes, b: Byte, start: int): (r: int)
    ensures -1 <= r < |s|
  {
    if start > |s| then -1 else FindFrom(s, b, Bound(start, |s|))
  }

  predicate IsSpaceByte(b: Byte) { b == SPACE || 9 <= b <= 13 }

  function StripLeft(s: Bytes): (r: Bytes)
  {
    if s != [] && IsSpaceByte(s[0]) then StripLeft(s[1..]) else s
  }

  function StripRight(s: Bytes): (r: Bytes)
  {
    if s != [] && IsSpaceByte(s[|s| - 1]) then StripRight(s[..|s| - 1]) else s
  }

  predicate IsDigitByte(b: Byte) { 48 <= b <= 57 }

  predicate DigitBytes(s: Bytes) { forall i | 0 <= i < |s| :: IsDigitByte(s[i]) }

  function FromBytes(s: Bytes): (ds: seq<Digit>)
    requires DigitBytes(s)
    ensures |ds| == |s|
  {
    seq(|s|, i requires 0 <= i < |s| => assert IsDigitByte(s[i]); s[i] - 48)
  }

  function ToBytes(ds: seq<Digit>): (s: Bytes)
    ensures |s| == |ds| && DigitBytes(s)
  {
    seq(|ds|, i requires 0 <= i < |ds| => (ds[i] as int) + 48)
  }

  lemma BytesRoundTrip(s: Bytes, ds: seq<Digit>)
    ensures DigitBytes(s) ==> ToBytes(FromBytes(s)) == s
    ensures FromBytes(ToBytes(ds)) == ds
  {
  }

  function Concat(parts: seq<Bytes>): (r: Bytes)
  {
    if parts == [] then [] else parts[0] + Concat(parts[1..])
  }

  /** Groups of digits separated by single underscores. */
  function Unsigned(s: Bytes): (r: Option<nat>)
  {
    var parts := Split(s, UNDERSCORE);
    if (forall i | 0 <= i < |parts| :: parts[i] != [] && DigitBytes(parts[i])) && DigitBytes(Concat(parts))
    then Some(Value(FromBytes(Concat(parts)))) else None
  }

  function Signed(sign: int, n: Option<nat>): (r: Option<int>)
  {
    match n
    case Some(value) => Some(sign * value)
    case None => None
  }

  /** `int(raw)` on bytes: None where it raises ValueError. */
  function PyInt(raw: Bytes): (r: Option<int>)
  {
    var s := StripRight(StripLeft(raw));
    if s != [] && s[0] == MINUS then Signed(-1, Unsigned(s[1..]))
    else if s != [] && s[0] == PLUS then Signed(1, Unsigned(s[1..]))
    else Signed(1, Unsigned(s))
  }

  /** Which bytes `int` reads, and as what: digits in groups, an optional sign, blanks around it. */
  ghost predicate Numeral(raw: Bytes, left: Bytes, sign: Bytes, groups: seq<Bytes>, right: Bytes)
  {
    && |groups| >= 1
    && raw == left + sign + Join(groups, UNDERSCORE) + right
    && (forall b | b in left + right :: IsSpaceByte(b))
    && sign in {[], [PLUS], [MINUS]}
    && forall i | 0 <= i < |groups| :: groups[i] != [] && forall b | b in groups[i] :: IsDigitByte(b)
  }

  /** The number those digits spell. */
  function Spelled(digits: Bytes): (n: nat)
    requires forall b | b in digits :: IsDigitByte(b)
  {
    if digits == [] then 0
    else
      var n := |digits| - 1;
      assert digits[n] in digits && IsDigitByte(digits[n]) && digits == digits[..n] + [digits[n]];
      Spelled(digits[..n]) * 10 + ((digits[n] as int) - 48)
  }

  lemma {:induction false} SpelledIsValue(digits: Bytes)
    requires forall b | b in digits :: IsDigitByte(b)
    ensures DigitBytes(digits) && Spelled(digits) == Value(FromBytes(digits))
  {
    assert forall i | 0 <= i < |digits| :: digits[i] in digits;
    if digits != [] {
      var n := |digits| - 1;
      assert digits == digits[..n] + [digits[n]];
      SpelledIsValue(digits[..n]);
      assert FromBytes(digits)[..n] == FromBytes(digits[..n]);
    }
  }

  lemma {:induction false} ConcatDigits(groups: seq<Bytes>)
    requires forall i | 0 <= i < |groups| :: forall b | b in groups[i] :: IsDigitByte(b)
    ensures forall b | b in Concat(groups) :: IsDigitByte(b)
  {
    if groups != [] {
      ConcatDigits(groups[1..]);
    }
  }

  lemma UnsignedMeans(s: Bytes, n: nat)
    ensures Unsigned(s) == Some(n) <==>
              exists groups ::
                && |groups| >= 1 && s == Join(groups, UNDERSCORE)
                && (forall i | 0 <= i < |groups| :: groups[i] != [] && forall b | b in groups[i] :: IsDigitByte(b))
                && (forall b | b in Concat(groups) :: IsDigitByte(b)) && Spelled(Concat(groups)) == n
  {
    hide Split, Join, Concat, Spelled, Value;
    var parts := Split(s, UNDERSCORE);
    JoinSplit(s, UNDERSCORE);
    if Unsigned(s) == Some(n) {
      forall i, b | 0 <= i < |parts| && b in parts[i]
        ensures IsDigitByte(b)
      {
        var k :| 0 <= k < |parts[i]| && parts[i][k] == b;
      }
      ConcatDigits(parts);
      SpelledIsValue(Concat(parts));
    }
    if groups :|
      && |groups| >= 1 && s == Join(groups, UNDERSCORE)
      && (forall i | 0 <= i < |groups| :: groups[i] != [] && forall b | b in groups[i] :: IsDigitByte(b))
      && (forall b | b in Concat(groups) :: IsDigitByte(b)) && Spelled(Concat(groups)) == n
    {
      forall i | 0 <= i < |groups|
        ensures UNDERSCORE !in groups[i] && DigitBytes(groups[i])
      {
        assert forall k | 0 <= k < |groups[i]| :: groups[i][k] in groups[i];
      }
      SplitJoin(groups, UNDERSCORE);
      SpelledIsValue(Concat(groups));
    }
  }

  lemma {:induction false} StripLeftMeans(left: Bytes, s: Bytes)
    requires (forall b | b in left :: IsSpaceByte(b)) && (s != [] ==> !IsSpaceByte(s[0]))
    ensures StripLeft(left + s) == s
  {
    if left == [] {
      assert left + s == s;
    } else {
      assert (left + s)[0] == left[0] && left[0] in left && (left + s)[1..] == left[1..] + s;
      StripLeftMeans(left[1..], s);
    }
  }

  lemma {:induction false} StripRightMeans(s: Bytes, right: Bytes)
    requires (forall b | b in right :: IsSpaceByte(b)) && (s != [] ==> !IsSpaceByte(s[|s| - 1]))
    ensures StripRight(s + right) == s
    decreases |right|
  {
    if right == [] {
      assert s + right == s;
    } else {
      var n := |right| - 1;
      assert right[n] in right && (s + right)[|s + right| - 1] == right[n];
      assert (s + right)[..|s + right| - 1] == s + right[..n];
      StripRightMeans(s, right[..n]);
    }
  }

  lemma {:induction false} StripLeftGives(s: Bytes) returns (left: Bytes)
    ensures s == left + StripLeft(s) && forall b | b in left :: IsSpaceByte(b)
  {
    if s != [] && IsSpaceByte(s[0]) {
      var rest := StripLeftGives(s[1..]);
      left := [s[0]] + rest;
      assert s == [s[0]] + s[1..];
    } else {
      left := [];
    }
  }

  lemma {:induction false} StripRightGives(s: Bytes) returns (right: Bytes)
    ensures s == StripRight(s) + right && forall b | b in right :: IsSpaceByte(b)
    decreases |s|
  {
    if s != [] && IsSpaceByte(s[|s| - 1]) {
      var n := |s| - 1;
      var rest := StripRightGives(s[..n]);
      right := rest + [s[n]];
      assert s == s[..n] + [s[n]];
    } else {
      right := [];
    }
  }

  /** Digits in groups begin and end with a digit. */
  lemma {:induction false} GroupEnds(groups: seq<Bytes>)
    requires |groups| >= 1
    requires forall i | 0 <= i < |groups| :: groups[i] != [] && forall b | b in groups[i] :: IsDigitByte(b)
    ensures var s := Join(groups, UNDERSCORE); s != [] && IsDigitByte(s[0]) && IsDigitByte(s[|s| - 1])
  {
    assert groups[0][0] in groups[0] && groups[0][|groups[0]| - 1] in groups[0];
    if |groups| > 1 {
      GroupEnds(groups[1..]);
    }
  }

  /** The numeral has the value `n`. */
  ghost predicate Spells(raw: Bytes, left: Bytes, sign: Bytes, groups: seq<Bytes>, right: Bytes, n: int)
  {
    && Numeral(raw, left, sign, groups, right)
    && (forall b | b in Concat(groups) :: IsDigitByte(b))
    && n == (if sign == [MINUS] then -1 else 1) * Spelled(Concat(groups))
  }

  lemma NumeralIsRead(raw: Bytes, left: Bytes, sign: Bytes, groups: seq<Bytes>, right: Bytes, n: int)
    requires Spells(raw, left, sign, groups, right, n)
    ensures PyInt(raw) == Some(n)
  {
    hide Unsigned, Join, Concat, Spelled, StripLeft, StripRight;
    var digits := Join(groups, UNDERSCORE);
    GroupEnds(groups);
    UnsignedMeans(digits, Spelled(Concat(groups)));
    Stripped(raw, left, sign, digits, right);
    hide IsSpaceByte, IsDigitByte;
    assert sign != [] ==> (sign + digits)[1..] == digits;
    assert sign == [] ==> sign + digits == digits;
  }

  lemma Stripped(raw: Bytes, left: Bytes, sign: Bytes, digits: Bytes, right: Bytes)
    requires raw == left + sign + digits + right && sign in {[], [PLUS], [MINUS]}
    requires digits != [] && IsDigitByte(digits[0]) && IsDigitByte(digits[|digits| - 1])
    requires forall b | b in left + right :: IsSpaceByte(b)
    ensures StripRight(StripLeft(raw)) == sign + digits
    ensures sign == [] ==> digits[0] !in {PLUS, MINUS}
  {
    hide StripLeft, StripRight;
    var t := sign + digits;
    assert raw == left + (t + right);
    assert t[|t| - 1] == digits[|digits| - 1];
    assert t[0] == if sign == [] then digits[0] else sign[0];
    assert forall b | b in left :: b in left + right;
    assert forall b | b in right :: b in left + right;
    StripLeftMeans(left, t + right);
    StripRightMeans(t, right);
  }

  lemma ReadIsNumeral(raw: Bytes, n: int)
    requires PyInt(raw) == Some(n)
    ensures exists left, sign, groups, right :: Spells(raw, left, sign, groups, right, n)
  {
    hide Unsigned, Join, Concat, Spelled, StripLeft, StripRight, IsSpaceByte, IsDigitByte;
    var left := StripLeftGives(raw);
    var right := StripRightGives(StripLeft(raw));
    var sign, digits := SignOf(StripRight(StripLeft(raw)));
    var value := Unsigned(digits).value;
    UnsignedMeans(digits, value);
    var groups :|
      && |groups| >= 1 && digits == Join(groups, UNDERSCORE)
      && (forall i | 0 <= i < |groups| :: groups[i] != [] && forall b | b in groups[i] :: IsDigitByte(b))
      && (forall b | b in Concat(groups) :: IsDigitByte(b)) && Spelled(Concat(groups)) == value;
    assert raw == left + sign + Join(groups, UNDERSCORE) + right;
    assert Spells(raw, left, sign, groups, right, n);
  }

  /** `int` on bytes reads exactly the numerals, as the number their digits spell with their sign. */
  lemma PyIntMeans(raw: Bytes, n: int)
    ensures PyInt(raw) == Some(n) <==> exists left, sign, groups, right :: Spells(raw, left, sign, groups, right, n)
  {
    hide PyInt, Spells;
    if PyInt(raw) == Some(n) {
      ReadIsNumeral(raw, n);
    }
    if left, sign, groups, right :| Spells(raw, left, sign, groups, right, n) {
      NumeralIsRead(raw, left, sign, groups, right, n);
    }
  }

  /** The sign `int` takes off, and the rest. */
  lemma SignOf(s: Bytes) returns (sign: Bytes, digits: Bytes)
    ensures s == sign + digits && sign in {[], [PLUS], [MINUS]}
    ensures sign == [] ==> digits == s && (s == [] || s[0] !in {PLUS, MINUS})
    ensures sign != [] ==> digits == s[1..] && sign == [s[0]]
  {
    if s != [] && s[0] in {PLUS, MINUS} {
      sign, digits := [s[0]], s[1..];
    } else {
      sign, digits := [], s;
    }
  }

  function Decimal(n: nat): Bytes { ToBytes(Digits(n)) }

  lemma {:induction false} SplitPlain(s: Bytes)
    requires DigitBytes(s)
    ensures Split(s, UNDERSCORE) == [s]
  {
    SplitHead(s, UNDERSCORE, []);
  }

  lemma UnsignedDecimal(s: Bytes)
    requires DigitBytes(s) && s != []
    ensures Unsigned(s) == Some(Value(FromBytes(s)))
  {
    SplitPlain(s);
    assert Concat([s]) == s;
  }

  /** A canonical decimal reads as its number. */
  lemma PyIntDecimal(n: nat)
    ensures PyInt(Decimal(n)) == Some(n)
  {
    hide Unsigned, Digits, Value, FromBytes;
    DecimalValue(n);
    var s := Decimal(n);
    DigitsAreNotStripped(s);
    UnsignedDecimal(s);
  }

  lemma DecimalValue(n: nat)
    ensures Decimal(n) != [] && DigitBytes(Decimal(n)) && Value(FromBytes(Decimal(n))) == n
  {
    hide Digits, Value, FromBytes, ToBytes;
    DigitsRoundTrip(n);
    BytesRoundTrip([], Digits(n));
  }

  lemma DigitsAreNotStripped(s: Bytes)
    requires s != [] && DigitBytes(s)
    ensures StripLeft(s) == s && StripRight(s) == s && s[0] != MINUS && s[0] != PLUS
  {
    assert IsDigitByte(s[0]) && IsDigitByte(s[|s| - 1]);
  }

  // ---------------------------------------------------------------- one frame

  /** What one iteration takes from the response. */
  datatype Taken = Taken(token: Bytes, size: int, content: Bytes, next: int)

  /** One iteration of the loop of `_read_blobs`: None where it raises. */
  function Take(response: Bytes, offset: int, objectId: Bytes): (r: Option<Taken>)
  {
    var headerEnd := Find(response, NEWLINE, offset);
    if headerEnd < 0 then None
    else
      var header := Split(Slice(response, offset, headerEnd), SPACE);
      if |header| != 3 then None
      else
        var size := PyInt(header[2]);
        if size.None? || header[0] != objectId || header[1] != BLOB then None
        else
          var start := headerEnd + 1;
          var end := start + size.value;
          if end >= |response| || Slice(response, end, end + 1) != [NEWLINE] then None
          else Some(Taken(header[2], size.value, Slice(response, start, end), end + 1))
  }

  /** The loop from a given offset: what was taken, and where it stopped. */
  function TakeAll(response: Bytes, offset: int, ids: seq<Bytes>): (r: Option<(seq<Taken>, int)>)
    decreases |ids|
  {
    if ids == [] then Some(([], offset))
    else
      var first := Take(response, offset, ids[0]);
      if first.None? then None
      else
        var rest := TakeAll(response, first.value.next, ids[1..]);
        if rest.None? then None else Some(([first.value] + rest.value.0, rest.value.1))
  }

  function Ids(tracked: seq<Tracked>): (ids: seq<Bytes>)
    ensures |ids| == |tracked|
  {
    seq(|tracked|, i requires 0 <= i < |tracked| => tracked[i].objectId)
  }

  function Describe(sha: Bytes -> Digest, t: Tracked, taken: Taken): ReleaseFile
  {
    ReleaseFile(t.path, sha(taken.content), taken.size)
  }

  lemma {:induction false} TakeAllSnoc(response: Bytes, offset: int, ids: seq<Bytes>, id: Bytes)
    ensures TakeAll(response, offset, ids + [id])
         == (var r := TakeAll(response, offset, ids);
             if r.None? then None
             else
               var t := Take(response, r.value.1, id);
               if t.None? then None else Some((r.value.0 + [t.value], t.value.next)))
    decreases |ids|
  {
    hide Take;
    if ids == [] {
      assert ids + [id] == [id] && [id][1..] == [];
      var t := Take(response, offset, id);
      if t.Some? {
        assert TakeAll(response, t.value.next, [id][1..]) == Some(([], t.value.next));
        assert [t.value] + [] == [] + [t.value];
      }
    } else {
      assert (ids + [id])[0] == ids[0] && (ids + [id])[1..] == ids[1..] + [id];
      var first := Take(response, offset, ids[0]);
      if first.Some? {
        TakeAllSnoc(response, first.value.next, ids[1..], id);
        var rest := TakeAll(response, first.value.next, ids[1..]);
        if rest.Some? {
          var t := Take(response, rest.value.1, id);
          if t.Some? {
            assert [first.value] + (rest.value.0 + [t.value]) == [first.value] + rest.value.0 + [t.value];
          }
        }
      }
    }
  }

  lemma {:induction false} TakeAllStuck(response: Bytes, offset: int, a: seq<Bytes>, b: seq<Bytes>)
    requires TakeAll(response, offset, a).None?
    ensures TakeAll(response, offset, a + b).None?
    decreases |a|
  {
    hide Take;
    assert (a + b)[0] == a[0] && (a + b)[1..] == a[1..] + b;
    var first := Take(response, offset, a[0]);
    if first.Some? {
      TakeAllStuck(response, first.value.next, a[1..], b);
    }
  }

  /** `_read_blobs`: None where it raises. */
  method ReadBlobs(sha: Bytes -> Digest, tracked: seq<Tracked>, response: Bytes) returns (r: Option<seq<ReleaseFile>>)
    ensures tracked == [] ==> r == Some([])
    ensures tracked != [] ==>
              var all := TakeAll(response, 0, Ids(tracked));
              r.Some? <==> all.Some? && all.value.1 == |response|
    ensures r.Some? && tracked != [] ==>
              && |r.value| == |tracked| == |TakeAll(response, 0, Ids(tracked)).value.0|
              && forall i | 0 <= i < |tracked| ::
                   r.value[i] == Describe(sha, tracked[i], TakeAll(response, 0, Ids(tracked)).value.0[i])
  {
    hide PyInt, Slice, Find, TakeAll;
    if tracked == [] {
      return Some([]);
    }
    ghost var ids := Ids(tracked);
    ghost var taken: seq<Taken> := [];
    var offset := 0;
    var files: seq<ReleaseFile> := [];
    TakeNothing(response);
    for i := 0 to |tracked|
      invariant TakeAll(response, 0, ids[..i]) == Some((taken, offset))
      invariant |files| == |taken| == i
      invariant forall k | 0 <= k < i :: files[k] == Describe(sha, tracked[k], taken[k])
    {
      var expected := tracked[i];
      assert ids[..i + 1] == ids[..i] + [expected.objectId] && ids == ids[..i + 1] + ids[i + 1..];
      TakeAllSnoc(response, 0, ids[..i], expected.objectId);
      if Take(response, offset, expected.objectId).None? {
        TakeAllStuck(response, 0, ids[..i + 1], ids[i + 1..]);
      }
      var headerEnd := Find(response, NEWLINE, offset);
      if headerEnd < 0 {
        return None;
      }
      var header := Split(Slice(response, offset, headerEnd), SPACE);
      if |header| != 3 {
        return None;
      }
      var objectId, objectType, rawSize := header[0], header[1], header[2];
      var size := PyInt(rawSize);
      if size.None? {
        return None;
      }
      if objectId != expected.objectId || objectType != BLOB {
        return None;
      }
      var contentStart := headerEnd + 1;
      var contentEnd := contentStart + size.value;
      if contentEnd >= |response| || Slice(response, contentEnd, contentEnd + 1) != [NEWLINE] {
        return None;
      }
      var content := Slice(response, contentStart, contentEnd);
      files := files + [ReleaseFile(expected.path, sha(content), size.value)];
      offset := contentEnd + 1;
      taken := taken + [Taken(rawSize, size.value, content, offset)];
    }
    assert ids[..|tracked|] == ids;
    if offset != |response| {
      return None;
    }
    return Some(files);
  }

  lemma TakeNothing(response: Bytes)
    ensures TakeAll(response, 0, []) == Some(([], 0))
  {
  }
}
