/** Python's order of strings and of tuples of strings, stated on its own, and what the sort keys mean by it. */
module TextOrder {
  import opened Ordering

  /** `a < b`: at the first difference `a` has ended or has the smaller character. */
  ghost predicate Below(a: string, b: string)
  {
    exists k: nat :: k <= |a| && k < |b| && a[..k] == b[..k] && (k == |a| || a[k] < b[k])
  }

  /** `(a, b) < (c, d)`. */
  ghost predicate PairBelow(x: (string, string), y: (string, string))
  {
    Below(x.0, y.0) || (x.0 == y.0 && Below(x.1, y.1))
  }

  lemma BelowTail(a: string, b: string)
    requires a != "" && b != "" && a[0] == b[0]
    ensures Below(a, b) ==> Below(a[1..], b[1..])
  {
    if Below(a, b) {
      var k: nat :| k <= |a| && k < |b| && a[..k] == b[..k] && (k == |a| || a[k] < b[k]);
      assert k > 0;
      assert a[1..][..k - 1] == a[..k][1..] && b[1..][..k - 1] == b[..k][1..];
    }
  }

  lemma TailBelow(a: string, b: string)
    requires a != "" && b != "" && a[0] == b[0]
    ensures Below(a[1..], b[1..]) ==> Below(a, b)
  {
    if Below(a[1..], b[1..]) {
      var k: nat :|
        && k <= |a| - 1 && k < |b| - 1 && a[1..][..k] == b[1..][..k]
        && (k == |a| - 1 || a[1..][k] < b[1..][k]);
      assert a[..k + 1] == [a[0]] + a[1..][..k] && b[..k + 1] == [b[0]] + b[1..][..k];
    }
  }

  lemma SharedHead(a: string, b: string)
    ensures forall k: nat | 0 < k <= |a| && k < |b| && a[..k] == b[..k] :: a[0] == b[0]
  {
    forall k: nat | 0 < k <= |a| && k < |b| && a[..k] == b[..k]
      ensures a[0] == b[0]
    {
      assert a[..k][0] == b[..k][0];
    }
  }

  lemma BelowHead(a: string, b: string)
    requires a == "" || b == "" || a[0] != b[0]
    ensures Below(a, b) <==> b != "" && (a == "" || a[0] < b[0])
  {
    SharedHead(a, b);
    assert a[..0] == b[..0];
  }

  lemma BelowStep(a: string, b: string)
    ensures Below(a, b) <==> b != "" && (a == "" || a[0] < b[0] || (a[0] == b[0] && Below(a[1..], b[1..])))
  {
    hide Below;
    if a != "" && b != "" && a[0] == b[0] {
      BelowTail(a, b);
      TailBelow(a, b);
    } else {
      BelowHead(a, b);
    }
  }

  lemma {:induction false} BelowTotal(a: string, b: string)
    ensures a == b || Below(a, b) || Below(b, a)
    ensures !(Below(a, b) && Below(b, a)) && !Below(a, a)
  {
    hide Below;
    BelowStep(a, b);
    BelowStep(b, a);
    BelowStep(a, a);
    if a != "" && b != "" {
      BelowTotal(a[1..], b[1..]);
      assert a == [a[0]] + a[1..] && b == [b[0]] + b[1..];
    } else if a != "" {
      BelowTotal(a[1..], a[1..]);
    }
  }

  /** A text followed by the rest of a tuple sorts by the text first and the rest second. */
  lemma {:induction false} TextKeyOrder(a: string, x: Key, b: string, y: Key)
    ensures Before(TextKey(a) + x, TextKey(b) + y) <==> Below(a, b) || (a == b && Before(x, y))
  {
    hide Below;
    var k, l := TextKey(a) + x, TextKey(b) + y;
    BelowStep(a, b);
    if a != "" && b != "" {
      assert k[1..] == TextKey(a[1..]) + x && l[1..] == TextKey(b[1..]) + y;
      TextKeyOrder(a[1..], x, b[1..], y);
      assert a == [a[0]] + a[1..] && b == [b[0]] + b[1..];
      BelowTotal(a, a);
    } else if a == "" && b == "" {
      assert k[1..] == x && l[1..] == y;
    }
  }

  lemma TextKeysOrder(a: string, b: string)
    ensures Before(TextKey(a), TextKey(b)) <==> Below(a, b)
  {
    hide Below, TextKey;
    TextKeyOrder(a, [], b, []);
    assert TextKey(a) + [] == TextKey(a) && TextKey(b) + [] == TextKey(b);
  }

  lemma PairOrder(x: (string, string), y: (string, string))
    ensures Before(TextKey(x.0) + TextKey(x.1), TextKey(y.0) + TextKey(y.1)) <==> PairBelow(x, y)
  {
    hide Below, TextKey, Before;
    TextKeyOrder(x.0, TextKey(x.1), y.0, TextKey(y.1));
    TextKeysOrder(x.1, y.1);
  }
}
