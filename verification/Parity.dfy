/** The projected-semantics gates of the provider qualification: F1, agreement, and what parity means. */
module Parity {
  /** One projected atom: its match key and the hash of its semantics. */
  datatype Atom = Atom(matchKey: string, semanticSha: string)

  datatype Kind = Qa | Event | Evidence | Track | Fusion

  /** The projected semantics of one variant, by kind. */
  type Projections = Kind -> seq<Atom>

  /** `_projection_map`: a later atom with the same key replaces an earlier one. */
  function ProjectionMap(atoms: seq<Atom>): (m: map<string, Atom>)
    ensures m.Keys == set a | a in atoms :: a.matchKey
  {
    if atoms == [] then map[]
    else
      var last := atoms[|atoms| - 1];
      assert atoms == atoms[..|atoms| - 1] + [last];
      ProjectionMap(atoms[..|atoms| - 1])[last.matchKey := last]
  }

  function Ratio(numerator: nat, denominator: nat, empty: real): real
  {
    if denominator != 0 then numerator as real / denominator as real else empty
  }

  function Flag(b: bool): real { if b then 1.0 else 0.0 }

  function Precision(left: set<string>, right: set<string>): real { Ratio(|left * right|, |right|, Flag(left == {})) }

  function Recall(left: set<string>, right: set<string>): real { Ratio(|left * right|, |left|, Flag(right == {})) }

  function F1(left: set<string>, right: set<string>): real
  {
    var p, r := Precision(left, right), Recall(left, right);
    if p + r != 0.0 then 2.0 * p * r / (p + r) else 0.0
  }

  function Agreeing(left: map<string, Atom>, right: map<string, Atom>): (keys: set<string>)
  {
    set k | k in left && k in right && left[k].semanticSha == right[k].semanticSha
  }

  function ExactAgreement(left: map<string, Atom>, right: map<string, Atom>): real
  {
    Ratio(|Agreeing(left, right)|, |left.Keys * right.Keys|, 1.0)
  }

  predicate KindParity(baseline: Projections, candidate: Projections, kind: Kind)
  {
    var left, right := ProjectionMap(baseline(kind)), ProjectionMap(candidate(kind));
    F1(left.Keys, right.Keys) == 1.0 && ExactAgreement(left, right) == 1.0
  }

  /** The full-resolution parity gate over the five kinds. */
  predicate ParityGate(baseline: Projections, candidate: Projections)
  {
    && KindParity(baseline, candidate, Qa) && KindParity(baseline, candidate, Event)
    && KindParity(baseline, candidate, Evidence) && KindParity(baseline, candidate, Track)
    && KindParity(baseline, candidate, Fusion)
  }

  // ---------------------------------------------------------------- F1

  lemma SubsetSize(a: set<string>, b: set<string>)
    requires a <= b
    ensures |a| <= |b|
    ensures |a| == |b| ==> a == b
  {
    assert b == a + (b - a);
  }

  lemma CommonSize(left: set<string>, right: set<string>)
    ensures |left * right| <= |left| && |left * right| <= |right|
    ensures |left * right| == |left| <==> left <= right
    ensures |left * right| == |right| <==> right <= left
  {
    SubsetSize(left * right, left);
    SubsetSize(left * right, right);
    if left <= right {
      assert left * right == left;
    }
    if right <= left {
      assert left * right == right;
    }
  }

  lemma Fraction(a: real, b: real, c: real)
    requires b != 0.0 && a == c * b
    ensures a / b == c
  {
  }

  lemma Cleared(c: real, d: real)
    requires d != 0.0
    ensures (c / d) * d == c
  {
  }

  /** Precision is the matched share of the right side, recall of the left; an empty side counts as all or nothing. */
  lemma SharesCount(left: set<string>, right: set<string>)
    ensures if right != {} then Precision(left, right) * |right| as real == |left * right| as real
            else Precision(left, right) == if left == {} then 1.0 else 0.0
    ensures if left != {} then Recall(left, right) * |left| as real == |left * right| as real
            else Recall(left, right) == if right == {} then 1.0 else 0.0
  {
    if right != {} {
      Cleared(|left * right| as real, |right| as real);
    }
    if left != {} {
      Cleared(|left * right| as real, |left| as real);
    }
  }

  /** F1 is twice the matches over all keys, and 1 when both sides are empty. */
  lemma F1Counts(left: set<string>, right: set<string>)
    ensures F1(left, right)
         == if left == {} && right == {} then 1.0
            else 2.0 * |left * right| as real / (|left| as real + |right| as real)
  {
  }

  /** Swapping the sides swaps precision and recall and leaves F1 alone. */
  lemma F1Symmetric(left: set<string>, right: set<string>)
    ensures F1(left, right) == F1(right, left)
    ensures Precision(left, right) == Recall(right, left)
  {
    assert left * right == right * left;
    F1Counts(left, right);
    F1Counts(right, left);
  }

  lemma F1One(left: set<string>, right: set<string>)
    ensures F1(left, right) == 1.0 <==> left == right
  {
    F1Counts(left, right);
    CommonSize(left, right);
    hide F1;
    if left != {} || right != {} {
      var c, n := |left * right|, |left| + |right|;
      assert n > 0;
      Cleared(2.0 * c as real, n as real);
      if 2 * c == n {
        Fraction(2.0 * c as real, n as real, 1.0);
      }
    }
  }

  // ---------------------------------------------------------------- parity

  function HashMap(atoms: seq<Atom>): (m: map<string, string>)
  {
    map k | k in ProjectionMap(atoms) :: ProjectionMap(atoms)[k].semanticSha
  }

  lemma ExactOne(left: map<string, Atom>, right: map<string, Atom>)
    ensures ExactAgreement(left, right) == 1.0 <==>
              forall k | k in left && k in right :: left[k].semanticSha == right[k].semanticSha
  {
    var common, same := left.Keys * right.Keys, Agreeing(left, right);
    SubsetSize(same, common);
    if |common| != 0 {
      Cleared(|same| as real, |common| as real);
      if |same| == |common| {
        Fraction(|same| as real, |common| as real, 1.0);
      }
    } else {
      assert common == {};
      assert forall k :: k in left && k in right ==> k in common;
    }
    assert same == common <==> forall k | k in left && k in right :: left[k].semanticSha == right[k].semanticSha by {
      if same == common {
        forall k | k in left && k in right
          ensures left[k].semanticSha == right[k].semanticSha
        {
          assert k in common;
        }
      }
    }
  }

  lemma KindParityIsMapEquality(baseline: Projections, candidate: Projections, kind: Kind)
    ensures KindParity(baseline, candidate, kind) <==> HashMap(baseline(kind)) == HashMap(candidate(kind))
  {
    hide F1, ExactAgreement, ProjectionMap;
    var left, right := ProjectionMap(baseline(kind)), ProjectionMap(candidate(kind));
    F1One(left.Keys, right.Keys);
    ExactOne(left, right);
    var x, y := HashMap(baseline(kind)), HashMap(candidate(kind));
    assert x.Keys == left.Keys && y.Keys == right.Keys;
    if x == y {
      forall k | k in left && k in right
        ensures left[k].semanticSha == right[k].semanticSha
      {
        assert x[k] == y[k];
      }
    }
  }

  /**
   * The full-resolution gate passes exactly when, for every kind, baseline and candidate map the same
   * match keys to the same semantic hashes.
   */
  lemma ParityGateIsMapEquality(baseline: Projections, candidate: Projections)
    ensures ParityGate(baseline, candidate)
       <==> forall kind: Kind :: HashMap(baseline(kind)) == HashMap(candidate(kind))
  {
    hide KindParity, HashMap;
    forall kind: Kind
      ensures KindParity(baseline, candidate, kind) <==> HashMap(baseline(kind)) == HashMap(candidate(kind))
    {
      KindParityIsMapEquality(baseline, candidate, kind);
    }
    if ParityGate(baseline, candidate) {
      forall kind: Kind
        ensures KindParity(baseline, candidate, kind)
      {
        match kind
        case Qa =>
        case Event =>
        case Evidence =>
        case Track =>
        case Fusion =>
      }
    }
  }

  /** The hash the gate compares for a key is that of the last atom listed with it. */
  lemma {:induction false} LastAtomCounts(atoms: seq<Atom>, i: nat)
    requires i < |atoms| && forall j | i < j < |atoms| :: atoms[j].matchKey != atoms[i].matchKey
    ensures atoms[i].matchKey in HashMap(atoms) && HashMap(atoms)[atoms[i].matchKey] == atoms[i].semanticSha
  {
    var n := |atoms| - 1;
    if i < n {
      var init := atoms[..n];
      LastAtomCounts(init, i);
      assert atoms[n].matchKey != atoms[i].matchKey;
      assert ProjectionMap(atoms) == ProjectionMap(init)[atoms[n].matchKey := atoms[n]];
    } else {
      assert ProjectionMap(atoms)[atoms[n].matchKey] == atoms[n];
    }
    hide ProjectionMap;
  }
}
