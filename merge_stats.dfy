/**
 * `merge_stats`: how completely two tables' key columns match, counted over the
 * distinct keys of each side.  Keys are kept abstract: whatever `set_index(on)`
 * yields, compared for equality.
 */
module MergeStats {
  import opened Outcomes

  /** The ten entries of the returned series, in the order it lists them. */
  datatype Stats = Stats(
    union: nat,
    intersection: nat,
    unionMinusIntersection: int,
    intersectionOverUnion: real,
    left: nat,
    right: nat,
    leftMinusIntersection: int,
    rightMinusIntersection: int,
    intersectionOverLeft: real,
    intersectionOverRight: real)

  /** `index.unique()`, as a set. */
  function Distinct<K(==,!new)>(keys: seq<K>): (r: set<K>)
    ensures forall k :: k in r <==> k in keys
  {
    set k | k in keys
  }

  /**
   * The counts and ratios; Python's true division `/` of two ints raises ZeroDivisionError for the
   * first ratio whose denominator is zero, which happens exactly when one side has no keys.
   */
  function Compute<K(==,!new)>(leftKeys: seq<K>, rightKeys: seq<K>): (r: Result<Stats>)
    ensures r.Ok? <==> leftKeys != [] && rightKeys != []
    ensures r.Err? ==> r.error == ZeroDivisionError
    ensures r.Ok? ==>
              var l, rt := Distinct(leftKeys), Distinct(rightKeys);
              r.value.union == |l + rt| && r.value.intersection == |l * rt| &&
              r.value.left == |l| && r.value.right == |rt|
    ensures r.Ok? ==>
              var l, rt := Distinct(leftKeys), Distinct(rightKeys);
              r.value.unionMinusIntersection == |(l + rt) - (l * rt)| &&
              r.value.leftMinusIntersection == |l - rt| && r.value.rightMinusIntersection == |rt - l|
    ensures r.Ok? ==>
              var l, rt := Distinct(leftKeys), Distinct(rightKeys);
              0 < |l| && 0 < |rt| && 0 < |l + rt| &&
              r.value.intersectionOverUnion == |l * rt| as real / |l + rt| as real &&
              r.value.intersectionOverLeft == |l * rt| as real / |l| as real &&
              r.value.intersectionOverRight == |l * rt| as real / |rt| as real
  {
    var leftIndex := Distinct(leftKeys);
    var rightIndex := Distinct(rightKeys);
    var union := leftIndex + rightIndex;
    var intersection := leftIndex * rightIndex;
    NonEmptyDistinct(leftKeys);
    NonEmptyDistinct(rightKeys);
    DifferenceCounts(leftIndex, rightIndex);
    if |union| == 0 || |leftIndex| == 0 || |rightIndex| == 0 then
      Err(ZeroDivisionError)
    else
      Ok(Stats(
        |union|,
        |intersection|,
        |union| - |intersection|,
        |intersection| as real / |union| as real,
        |leftIndex|,
        |rightIndex|,
        |leftIndex| - |intersection|,
        |rightIndex| - |intersection|,
        |intersection| as real / |leftIndex| as real,
        |intersection| as real / |rightIndex| as real))
  }

  lemma NonEmptyDistinct<K(!new)>(keys: seq<K>)
    ensures |Distinct(keys)| == 0 <==> keys == []
  {
    if keys != [] {
      assert keys[0] in Distinct(keys);
    }
  }

  /** Every distinct key is counted once: in both, only on the left, or only on the right. */
  lemma {:induction false} UnionSplits<K(!new)>(leftKeys: seq<K>, rightKeys: seq<K>)
    requires Compute(leftKeys, rightKeys).Ok?
    ensures var s := Compute(leftKeys, rightKeys).value;
            s.union == s.intersection + s.leftMinusIntersection + s.rightMinusIntersection &&
            s.unionMinusIntersection == s.leftMinusIntersection + s.rightMinusIntersection
  {
    var l, r := Distinct(leftKeys), Distinct(rightKeys);
    CardinalityOfUnion(l, r);
  }

  lemma CardinalityOfUnion<K>(a: set<K>, b: set<K>)
    ensures |a + b| + |a * b| == |a| + |b|
  {
    assert a + b == a + (b - a);
    assert b == (b - a) + (a * b);
    assert (b - a) * (a * b) == {};
    assert a * (b - a) == {};
  }

  /** Removing `b` from `a` removes exactly the common elements. */
  lemma DifferenceCardinality<K>(a: set<K>, b: set<K>)
    ensures |a - b| == |a| - |a * b|
  {
    assert a == (a - b) + (a * b);
    assert (a - b) * (a * b) == {};
  }

  /** The three differences counted by their sizes. */
  lemma DifferenceCounts<K>(l: set<K>, rt: set<K>)
    ensures |(l + rt) - (l * rt)| == |l + rt| - |l * rt|
    ensures |l - rt| == |l| - |l * rt|
    ensures |rt - l| == |rt| - |l * rt|
  {
    DifferenceCardinality(l + rt, l * rt);
    assert (l + rt) * (l * rt) == l * rt;
    DifferenceCardinality(l, rt);
    DifferenceCardinality(rt, l);
    assert rt * l == l * rt;
  }

  lemma SubsetCardinality<K>(a: set<K>, b: set<K>)
    requires a <= b
    ensures |a| <= |b|
  {
    assert b == a + (b - a);
  }

  /** No count exceeds the number of distinct keys overall, and none of them is negative. */
  lemma {:induction false} CountsBounded<K(!new)>(leftKeys: seq<K>, rightKeys: seq<K>)
    requires Compute(leftKeys, rightKeys).Ok?
    ensures var s := Compute(leftKeys, rightKeys).value;
            s.intersection <= s.left <= s.union && s.right <= s.union &&
            0 <= s.unionMinusIntersection <= s.union &&
            0 <= s.leftMinusIntersection <= s.union && 0 <= s.rightMinusIntersection <= s.union
  {
    var l, r := Distinct(leftKeys), Distinct(rightKeys);
    SubsetCardinality(l * r, l);
    SubsetCardinality(l * r, r);
    SubsetCardinality(l, l + r);
    SubsetCardinality(r, l + r);
  }

  /** Every ratio lies between 0 and 1. */
  lemma {:induction false} RatiosBounded<K(!new)>(leftKeys: seq<K>, rightKeys: seq<K>)
    requires Compute(leftKeys, rightKeys).Ok?
    ensures var s := Compute(leftKeys, rightKeys).value;
            0.0 <= s.intersectionOverUnion <= 1.0 &&
            0.0 <= s.intersectionOverLeft <= 1.0 && 0.0 <= s.intersectionOverRight <= 1.0
  {
    CountsBounded(leftKeys, rightKeys);
    var s := Compute(leftKeys, rightKeys).value;
    RatioBounded(s.intersection, s.union);
    RatioBounded(s.intersection, s.left);
    RatioBounded(s.intersection, s.right);
  }

  lemma RatioBounded(a: nat, b: nat)
    requires 0 < b && a <= b
    ensures 0.0 <= a as real / b as real <= 1.0
  {
  }

  /** The match is complete, `intersection/union == 1`, exactly when both sides have the same keys. */
  lemma {:induction false} CompleteMatch<K(!new)>(leftKeys: seq<K>, rightKeys: seq<K>)
    requires Compute(leftKeys, rightKeys).Ok?
    ensures Compute(leftKeys, rightKeys).value.intersectionOverUnion == 1.0 <==>
            Distinct(leftKeys) == Distinct(rightKeys)
  {
    var l, r := Distinct(leftKeys), Distinct(rightKeys);
    var s := Compute(leftKeys, rightKeys).value;
    if s.intersectionOverUnion == 1.0 {
      assert s.intersection == s.union;
      SubsetEqualCardinality(l * r, l + r);
      assert l == r by {
        forall k | k in l + r ensures k in l && k in r {
          assert k in l * r;
        }
      }
    }
    if l == r {
      assert l * r == l + r;
    }
  }

  lemma SubsetEqualCardinality<K>(a: set<K>, b: set<K>)
    requires a <= b && |a| == |b|
    ensures a == b
  {
    assert |b - a| == 0 by {
      assert b == a + (b - a);
    }
  }
}
