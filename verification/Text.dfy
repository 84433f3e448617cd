/** Splitting on a separator and decimal notation, as the registration and release scripts use them. */
module Text {
  datatype Option<+T> = None | Some(value: T)

  /** `s.split(sep)` for a one-element separator: always at least one piece. */
  function Split<T(==)>(s: seq<T>, sep: T): (parts: seq<seq<T>>)
    ensures |parts| >= 1
  {
    if s == [] then [[]]
    else
      var rest := Split(s[1..], sep);
      if s[0] == sep then [[]] + rest else [[s[0]] + rest[0]] + rest[1..]
  }

  function Join<T>(parts: seq<seq<T>>, sep: T): (s: seq<T>)
    requires |parts| >= 1
  {
    if |parts| == 1 then parts[0] else parts[0] + [sep] + Join(parts[1..], sep)
  }

  lemma {:induction false} JoinSplit<T>(s: seq<T>, sep: T)
    ensures Join(Split(s, sep), sep) == s
    ensures forall i | 0 <= i < |Split(s, sep)| :: sep !in Split(s, sep)[i]
  {
    if s != [] {
      JoinSplit(s[1..], sep);
      var rest := Split(s[1..], sep);
      var parts := Split(s, sep);
      if s[0] == sep {
        assert parts[1..] == rest;
      } else {
        assert parts[1..] == rest[1..];
        if |rest| > 1 {
          assert Join(parts, sep) == [s[0]] + (rest[0] + [sep] + Join(rest[1..], sep));
        }
      }
    }
  }

  /** Apart from the separator, the pieces hold exactly what the whole held. */
  lemma {:induction false} SplitMembers<T>(s: seq<T>, sep: T, x: T)
    requires x != sep
    ensures x in s <==> exists i :: 0 <= i < |Split(s, sep)| && x in Split(s, sep)[i]
  {
    if s != [] {
      var rest, parts := Split(s[1..], sep), Split(s, sep);
      SplitMembers(s[1..], sep, x);
      assert s == [s[0]] + s[1..];
      if x == s[0] {
        assert x in parts[0];
      } else if x in s {
        var i :| 0 <= i < |rest| && x in rest[i];
        assert x in parts[if s[0] == sep then i + 1 else i];
      } else {
        forall i | 0 <= i < |parts|
          ensures x !in parts[i]
        {
          assert s[0] == sep && i > 0 ==> parts[i] == rest[i - 1];
        }
      }
    }
  }

  lemma {:induction false} SplitHead<T>(head: seq<T>, sep: T, tail: seq<T>)
    requires sep !in head
    ensures Split(head, sep) == [head]
    ensures Split(head + [sep] + tail, sep) == [head] + Split(tail, sep)
  {
    var s := head + [sep] + tail;
    if head == [] {
      assert s[1..] == tail;
    } else {
      SplitHead(head[1..], sep, tail);
      assert s[1..] == head[1..] + [sep] + tail;
      assert [head[0]] + head[1..] == head;
    }
  }

  lemma {:induction false} SplitJoin<T>(parts: seq<seq<T>>, sep: T)
    requires |parts| >= 1
    requires forall i | 0 <= i < |parts| :: sep !in parts[i]
    ensures Split(Join(parts, sep), sep) == parts
  {
    if |parts| == 1 {
      SplitHead(parts[0], sep, []);
    } else {
      SplitHead(parts[0], sep, Join(parts[1..], sep));
      SplitJoin(parts[1..], sep);
    }
  }

  type Digit = d: int | 0 <= d < 10

  /** Decimal digits of a natural number, most significant first and without leading zeros. */
  function Digits(n: nat): (ds: seq<Digit>)
    ensures |ds| >= 1
  {
    if n < 10 then [n] else Digits(n / 10) + [n % 10]
  }

  function Value(ds: seq<Digit>): (n: nat)
  {
    if ds == [] then 0 else Value(ds[..|ds| - 1]) * 10 + ds[|ds| - 1]
  }

  /** What `0|[1-9][0-9]*` matches. */
  predicate Canonical(ds: seq<Digit>)
  {
    ds != [] && (ds[0] == 0 ==> |ds| == 1)
  }

  lemma {:induction false} DigitsRoundTrip(n: nat)
    ensures Value(Digits(n)) == n && Canonical(Digits(n))
    ensures n > 0 ==> Digits(n)[0] != 0
  {
    if n >= 10 {
      DigitsRoundTrip(n / 10);
      assert Digits(n)[..|Digits(n)| - 1] == Digits(n / 10);
      assert Digits(n)[0] == Digits(n / 10)[0];
    }
  }

  lemma {:induction false} ValueRoundTrip(ds: seq<Digit>)
    requires Canonical(ds)
    ensures Digits(Value(ds)) == ds
    ensures |ds| > 1 ==> Value(ds) >= 10
  {
    if |ds| > 1 {
      var init := ds[..|ds| - 1];
      ValueRoundTrip(init);
      if |init| == 1 {
        assert Value(init) == init[0] by { assert init[..0] == []; }
      }
      assert Value(ds) / 10 == Value(init) && Value(ds) % 10 == ds[|ds| - 1];
      assert ds == init + [ds[|ds| - 1]];
    } else {
      assert ds[..0] == [];
    }
  }

  predicate IsDigitChar(c: char) { '0' <= c <= '9' }

  predicate AllDigits(s: string) { forall i | 0 <= i < |s| :: IsDigitChar(s[i]) }

  function FromChars(s: string): (ds: seq<Digit>)
    requires AllDigits(s)
    ensures |ds| == |s|
  {
    seq(|s|, i requires 0 <= i < |s| => s[i] as int - '0' as int)
  }

  function ToChars(ds: seq<Digit>): (s: string)
    ensures |s| == |ds| && AllDigits(s)
  {
    seq(|ds|, i requires 0 <= i < |ds| => (ds[i] + '0' as int) as char)
  }

  lemma CharsRoundTrip(s: string, ds: seq<Digit>)
    ensures AllDigits(s) ==> ToChars(FromChars(s)) == s
    ensures FromChars(ToChars(ds)) == ds
  {
  }

  predicate StartsWith(s: string, prefix: string) { |prefix| <= |s| && s[..|prefix|] == prefix }

  predicate EndsWith(s: string, suffix: string) { |suffix| <= |s| && s[|s| - |suffix|..] == suffix }
}
