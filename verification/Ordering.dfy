/** Lexicographic sort keys and the stable sort Python's `sorted(..., key=...)` performs. */
module Ordering {
  /** A tuple key flattened to integers: strings end in -1, which sorts before every character. */
  type Key = seq<int>

  function TextKey(s: string): (k: Key)
  {
    seq(|s|, i requires 0 <= i < |s| => s[i] as int) + [-1]
  }

  lemma TextKeyInjective(a: string, b: string)
    ensures TextKey(a) == TextKey(b) ==> a == b
  {
    if TextKey(a) == TextKey(b) {
      assert |TextKey(a)| == |a| + 1 && |TextKey(b)| == |b| + 1;
      forall i | 0 <= i < |a|
        ensures a[i] == b[i]
      {
        assert TextKey(a)[i] == a[i] as int && TextKey(b)[i] == b[i] as int;
      }
    }
  }

  lemma {:induction false} TextKeyPrefixFree(a: string, x: Key, b: string, y: Key)
    requires TextKey(a) + x == TextKey(b) + y
    ensures a == b && x == y
  {
    var k, l := TextKey(a) + x, TextKey(b) + y;
    assert k[|a|] == -1 && l[|b|] == -1;
    assert forall i | 0 <= i < |a| :: k[i] == a[i] as int;
    assert forall i | 0 <= i < |b| :: l[i] == b[i] as int;
    assert |a| == |b|;
    assert k[|a| + 1..] == x && l[|b| + 1..] == y;
  }

  predicate Before(a: Key, b: Key)
  {
    b != [] && (a == [] || a[0] < b[0] || (a[0] == b[0] && Before(a[1..], b[1..])))
  }

  lemma {:induction false} BeforeTotal(a: Key, b: Key)
    ensures a == b || Before(a, b) || Before(b, a)
    ensures !(Before(a, b) && Before(b, a))
    ensures a == b ==> !Before(a, b)
  {
    if a != [] && b != [] {
      BeforeTotal(a[1..], b[1..]);
      if a[0] == b[0] && a[1..] == b[1..] {
        assert a == [a[0]] + a[1..] == b;
      }
    }
  }

  /** No element sorts strictly before an earlier one. */
  ghost predicate Ascending<T>(s: seq<T>, key: T -> Key)
  {
    forall i, j | 0 <= i < j < |s| :: !Before(key(s[j]), key(s[i]))
  }

  ghost predicate DistinctKeys<T>(s: seq<T>, key: T -> Key)
  {
    forall i, j | 0 <= i < j < |s| :: key(s[i]) != key(s[j])
  }

  function Insert<T>(x: T, s: seq<T>, key: T -> Key): (r: seq<T>)
  {
    if s == [] || !Before(key(s[0]), key(x)) then [x] + s
    else [s[0]] + Insert(x, s[1..], key)
  }

  function SortBy<T>(s: seq<T>, key: T -> Key): (r: seq<T>)
  {
    if s == [] then [] else Insert(s[0], SortBy(s[1..], key), key)
  }

  lemma {:induction false} FirstIsLeast<T>(s: seq<T>, key: T -> Key, x: T)
    requires Ascending(s, key) && x in s
    ensures !Before(key(x), key(s[0]))
  {
    var i :| 0 <= i < |s| && s[i] == x;
    BeforeTotal(key(x), key(s[0]));
  }

  lemma LeastStays(least: Key, y: Key, x: Key)
    requires !Before(y, least) && !Before(least, x)
    ensures !Before(y, x)
  {
  }

  lemma {:induction false} InsertMembers<T>(x: T, s: seq<T>, key: T -> Key)
    ensures multiset(Insert(x, s, key)) == multiset{x} + multiset(s)
  {
    if s != [] {
      InsertMembers(x, s[1..], key);
      assert s == [s[0]] + s[1..];
    }
  }

  lemma InsertMember<T>(x: T, s: seq<T>, key: T -> Key, y: T)
    ensures y in Insert(x, s, key) <==> y == x || y in s
  {
  }

  lemma {:induction false} InsertAscending<T>(x: T, s: seq<T>, key: T -> Key)
    requires Ascending(s, key)
    ensures Ascending(Insert(x, s, key), key)
  {
    if s == [] || !Before(key(s[0]), key(x)) {
      forall j | 0 <= j < |s|
        ensures !Before(key(s[j]), key(x))
      {
        FirstIsLeast(s, key, s[j]);
        LeastStays(key(s[0]), key(s[j]), key(x));
      }
    } else {
      var rest := Insert(x, s[1..], key);
      InsertAscending(x, s[1..], key);
      BeforeTotal(key(s[0]), key(x));
      forall y | y in rest
        ensures !Before(key(y), key(s[0]))
      {
        InsertMember(x, s[1..], key, y);
        if y != x {
          FirstIsLeast(s, key, y);
        }
      }
    }
  }

  lemma {:induction false} InsertDistinct<T>(x: T, s: seq<T>, key: T -> Key)
    requires DistinctKeys(s, key) && forall y | y in s :: key(y) != key(x)
    ensures DistinctKeys(Insert(x, s, key), key)
  {
    if s != [] && Before(key(s[0]), key(x)) {
      var rest := Insert(x, s[1..], key);
      InsertDistinct(x, s[1..], key);
      forall y | y in rest
        ensures key(y) != key(s[0])
      {
        InsertMember(x, s[1..], key, y);
        if y != x {
          var i :| 0 <= i < |s[1..]| && s[1..][i] == y;
          assert s[i + 1] == y;
        }
      }
    }
  }

  lemma {:induction false} SortByKeeps<T>(s: seq<T>, key: T -> Key)
    ensures multiset(SortBy(s, key)) == multiset(s)
    ensures Ascending(SortBy(s, key), key)
    ensures |SortBy(s, key)| == |s|
  {
    if s != [] {
      SortByKeeps(s[1..], key);
      InsertMembers(s[0], SortBy(s[1..], key), key);
      InsertAscending(s[0], SortBy(s[1..], key), key);
      assert s == [s[0]] + s[1..];
    }
    assert |multiset(SortBy(s, key))| == |multiset(s)|;
  }

  lemma SortByMember<T>(s: seq<T>, key: T -> Key, x: T)
    ensures x in SortBy(s, key) <==> x in s
  {
    SortByKeeps(s, key);
    assert x in SortBy(s, key) <==> x in multiset(SortBy(s, key));
    assert x in s <==> x in multiset(s);
  }

  lemma {:induction false} SortByDistinct<T>(s: seq<T>, key: T -> Key)
    requires DistinctKeys(s, key)
    ensures DistinctKeys(SortBy(s, key), key)
  {
    if s != [] {
      var rest := SortBy(s[1..], key);
      SortByDistinct(s[1..], key);
      SortByKeeps(s[1..], key);
      forall y | y in rest
        ensures key(y) != key(s[0])
      {
        SortByMember(s[1..], key, y);
        var i :| 0 <= i < |s[1..]| && s[1..][i] == y;
        assert s[i + 1] == y;
      }
      InsertDistinct(s[0], rest, key);
    }
  }

  /** Elements with equal keys are equal. */
  ghost predicate TiesEqual<T>(s: seq<T>, key: T -> Key)
  {
    forall i, j | 0 <= i < |s| && 0 <= j < |s| && key(s[i]) == key(s[j]) :: s[i] == s[j]
  }

  /** An ascending arrangement in which ties are equal is determined by its elements alone. */
  lemma {:induction false} AscendingDetermined<T>(a: seq<T>, b: seq<T>, key: T -> Key)
    requires multiset(a) == multiset(b)
    requires Ascending(a, key) && Ascending(b, key) && TiesEqual(a, key)
    ensures a == b
  {
    assert |a| == |multiset(a)| == |multiset(b)| == |b|;
    if a != [] {
      assert a[0] in multiset(b) && b[0] in multiset(a);
      FirstIsLeast(a, key, b[0]);
      FirstIsLeast(b, key, a[0]);
      BeforeTotal(key(a[0]), key(b[0]));
      var i :| 0 <= i < |a| && a[i] == b[0];
      assert a[0] == b[0];
      TailMultiset(a);
      TailMultiset(b);
      AscendingDetermined(a[1..], b[1..], key);
      assert a == [a[0]] + a[1..] && b == [b[0]] + b[1..];
    }
  }

  /** An ascending arrangement with distinct keys is determined by its elements alone. */
  lemma AscendingUnique<T>(a: seq<T>, b: seq<T>, key: T -> Key)
    requires multiset(a) == multiset(b)
    requires Ascending(a, key) && Ascending(b, key) && DistinctKeys(a, key)
    ensures a == b
  {
    assert TiesEqual(a, key) by {
      forall i, j | 0 <= i < |a| && 0 <= j < |a| && key(a[i]) == key(a[j])
        ensures i == j
      {
      }
    }
    AscendingDetermined(a, b, key);
  }

  lemma TailMultiset<T>(s: seq<T>)
    requires s != []
    ensures multiset(s[1..]) == multiset(s) - multiset{s[0]}
  {
    assert s == [s[0]] + s[1..];
  }

  /** Sorting forgets the order in which a caller listed distinct keys. */
  lemma {:induction false} SortForgetsOrder<T>(a: seq<T>, b: seq<T>, key: T -> Key)
    requires multiset(a) == multiset(b) && DistinctKeys(a, key)
    ensures SortBy(a, key) == SortBy(b, key)
  {
    SortByKeeps(a, key);
    SortByKeeps(b, key);
    SortByDistinct(a, key);
    AscendingUnique(SortBy(a, key), SortBy(b, key), key);
  }

  /** Every element sorts strictly before every later one. */
  ghost predicate Strict<T>(s: seq<T>, key: T -> Key)
  {
    forall i, j | 0 <= i < j < |s| :: Before(key(s[i]), key(s[j]))
  }

  lemma {:induction false} CountOnce<T>(s: seq<T>, x: T)
    requires forall i, j | 0 <= i < j < |s| :: s[i] != s[j]
    ensures multiset(s)[x] == if x in s then 1 else 0
  {
    if s != [] {
      assert s == [s[0]] + s[1..];
      CountOnce(s[1..], x);
    }
  }

  lemma StrictMeans<T>(s: seq<T>, key: T -> Key)
    requires Strict(s, key)
    ensures Ascending(s, key) && DistinctKeys(s, key)
  {
    hide Before;
    forall i, j | 0 <= i < j < |s|
      ensures !Before(key(s[j]), key(s[i])) && key(s[i]) != key(s[j])
    {
      BeforeTotal(key(s[i]), key(s[j]));
    }
  }

  /** A strictly ascending arrangement is determined by which elements it holds. */
  lemma StrictUnique<T(!new)>(a: seq<T>, b: seq<T>, key: T -> Key)
    requires Strict(a, key) && Strict(b, key) && forall x :: x in a <==> x in b
    ensures a == b
  {
    hide Before;
    StrictMeans(a, key);
    StrictMeans(b, key);
    forall x: T
      ensures multiset(a)[x] == multiset(b)[x]
    {
      CountOnce(a, x);
      CountOnce(b, x);
    }
    assert multiset(a) == multiset(b);
    AscendingUnique(a, b, key);
  }

  lemma SortIsStrict<T>(s: seq<T>, key: T -> Key)
    requires DistinctKeys(s, key)
    ensures Strict(SortBy(s, key), key)
  {
    hide Before, SortBy;
    var sorted := SortBy(s, key);
    SortByKeeps(s, key);
    SortByDistinct(s, key);
    forall i, j | 0 <= i < j < |sorted|
      ensures Before(key(sorted[i]), key(sorted[j]))
    {
      BeforeTotal(key(sorted[i]), key(sorted[j]));
    }
  }
}
