/**
 * Group-wise column operations of `misc_tools` on one column and its row keys:
 * `df.groupby(keys)[col].transform(lambda x: x.sum() - x)` and
 * `df.groupby(keys)[col].shift(lags)`.
 *
 * A row's key is `None` when one of its grouping values is null; pandas leaves such
 * rows out of every group and gives them a null result.  A value is `None` when the
 * cell is null.
 */
module Groups {
  import opened Outcomes

  /** How many rows of `keys` carry the key `k`. */
  function Count<K(==)>(keys: seq<Option<K>>, k: Option<K>): (n: nat)
    ensures n <= |keys|
  {
    if keys == [] then 0
    else Count(keys[..|keys| - 1], k) + (if keys[|keys| - 1] == k then 1 else 0)
  }

  /** The position of row `i` inside its group: the number of earlier rows with its key. */
  function Rank<K(==)>(keys: seq<Option<K>>, i: nat): nat
    requires i < |keys|
  {
    Count(keys[..i], keys[i])
  }

  // ---------------------------------------------------------------- leave-one-out sums

  /** The non-null values of the rows from `j` on whose key is `k`, leaving out row `skip`. */
  function SumFrom<K(==)>(keys: seq<Option<K>>, values: seq<Option<int>>, k: K, skip: int, j: nat): int
    requires |keys| == |values| && j <= |keys|
    decreases |keys| - j
  {
    if j == |keys| then 0
    else
      (if j != skip && keys[j] == Some(k) && values[j].Some? then values[j].value else 0) +
      SumFrom(keys, values, k, skip, j + 1)
  }

  /** `x.sum()` over the group `k`: nulls are skipped. */
  function GroupSum<K(==)>(keys: seq<Option<K>>, values: seq<Option<int>>, k: K): int
    requires |keys| == |values|
  {
    SumFrom(keys, values, k, -1, 0)
  }

  /** The reference: the sum of the values of the other rows of row `i`'s group. */
  function SumOfOthers<K(==)>(keys: seq<Option<K>>, values: seq<Option<int>>, i: nat): int
    requires |keys| == |values| && i < |keys| && keys[i].Some?
  {
    SumFrom(keys, values, keys[i].value, i, 0)
  }

  /**
   * `leave_one_out_sums`: each row gets its group's sum minus its own value; rows with a
   * null key or a null value get null.
   */
  function LeaveOneOutSums<K(==)>(keys: seq<Option<K>>, values: seq<Option<int>>): (r: seq<Option<int>>)
    requires |keys| == |values|
    ensures |r| == |keys|
    ensures forall i :: 0 <= i < |r| ==> (r[i].None? <==> keys[i].None? || values[i].None?)
  {
    seq(|keys|, i requires 0 <= i < |keys| =>
      if keys[i].None? || values[i].None? then None
      else Some(GroupSum(keys, values, keys[i].value) - values[i].value))
  }

  lemma {:induction false} SumFromSkip<K>(keys: seq<Option<K>>, values: seq<Option<int>>, i: nat, j: nat)
    requires |keys| == |values| && j <= |keys| && i < |keys| && keys[i].Some? && values[i].Some?
    ensures SumFrom(keys, values, keys[i].value, -1, j) ==
            SumFrom(keys, values, keys[i].value, i, j) + (if j <= i then values[i].value else 0)
    decreases |keys| - j
  {
    if j < |keys| {
      SumFromSkip(keys, values, i, j + 1);
    }
  }

  /** Each leave-one-out sum is the sum over the other rows of the same group. */
  lemma {:induction false} LeaveOneOutIsSumOfOthers<K>(keys: seq<Option<K>>, values: seq<Option<int>>, i: nat)
    requires |keys| == |values| && i < |keys| && keys[i].Some? && values[i].Some?
    ensures LeaveOneOutSums(keys, values)[i] == Some(SumOfOthers(keys, values, i))
  {
    SumFromSkip(keys, values, i, 0);
  }

  /** The documented example: groups `one, one, one, two, two, two` over `1, 5, 5, 2, 5, 3`. */
  lemma {:induction false} LeaveOneOutExample()
    ensures LeaveOneOutSums(
              [Some("one"), Some("one"), Some("one"), Some("two"), Some("two"), Some("two")],
              [Some(1), Some(5), Some(5), Some(2), Some(5), Some(3)])
            == [Some(10), Some(6), Some(6), Some(8), Some(5), Some(7)]
  {
    var keys := [Some("one"), Some("one"), Some("one"), Some("two"), Some("two"), Some("two")];
    var values := [Some(1), Some(5), Some(5), Some(2), Some(5), Some(3)];
    assert GroupSum(keys, values, "one") == 11 by {
      assert SumFrom(keys, values, "one", -1, 3) == 0;
    }
    assert GroupSum(keys, values, "two") == 10 by {
      assert SumFrom(keys, values, "two", -1, 3) == 10;
    }
  }

  // ---------------------------------------------------------------- group-wise shift

  /** The first row, from `j` on, that has key `k` and rank `rank` in its group. */
  function FindByRank<K(==)>(keys: seq<Option<K>>, k: Option<K>, rank: nat, j: nat): (r: Option<nat>)
    requires j <= |keys|
    ensures r.Some? ==> j <= r.value < |keys| && keys[r.value] == k && Rank(keys, r.value) == rank
    decreases |keys| - j
  {
    if j == |keys| then None
    else if keys[j] == k && Count(keys[..j], k) == rank then Some(j)
    else FindByRank(keys, k, rank, j + 1)
  }

  /**
   * `groupby(keys)[col].shift(lags)`: row `i` takes the value of the row of its group
   * whose rank is `lags` less than its own, or null when there is none.
   */
  function GroupShift<K(==), V>(keys: seq<Option<K>>, values: seq<V>, lags: int): (r: seq<Option<V>>)
    requires |keys| == |values|
    ensures |r| == |keys|
    ensures forall i :: 0 <= i < |r| && keys[i].None? ==> r[i].None?
  {
    seq(|keys|, i requires 0 <= i < |keys| =>
      var target := Rank(keys, i) - lags;
      if keys[i].None? || target < 0 then None
      else match FindByRank(keys, keys[i], target, 0)
        case None => None
        case Some(j) => Some(values[j]))
  }

  lemma {:induction false} CountAppend<K>(a: seq<Option<K>>, b: seq<Option<K>>, k: Option<K>)
    ensures Count(a + b, k) == Count(a, k) + Count(b, k)
    decreases |b|
  {
    if b == [] {
      assert a + b == a;
    } else {
      var b' := b[..|b| - 1];
      assert (a + b)[..|a + b| - 1] == a + b';
      CountAppend(a, b', k);
    }
  }

  /** Ranks within a group grow by one from row to row of that group. */
  lemma {:induction false} RankOrder<K>(keys: seq<Option<K>>, j: nat, i: nat)
    requires j < i < |keys| && keys[j] == keys[i]
    ensures Rank(keys, j) < Rank(keys, i)
    ensures Rank(keys, i) - Rank(keys, j) == Count(keys[j..i], keys[i])
  {
    assert keys[..i] == keys[..j] + keys[j..i];
    CountAppend(keys[..j], keys[j..i], keys[i]);
    assert keys[j..i] == [keys[j]] + keys[j + 1..i];
    CountAppend([keys[j]], keys[j + 1..i], keys[i]);
    assert Count([keys[j]], keys[i]) == 1 by {
      assert [keys[j]][..0] == [];
    }
  }

  /** Some row of the group has every rank below the rank of a given row of it. */
  lemma {:induction false} RankReached<K>(keys: seq<Option<K>>, i: nat, rank: nat)
    requires i < |keys| && rank <= Rank(keys, i)
    ensures FindByRank(keys, keys[i], rank, 0).Some?
  {
    var j := FirstWithRank(keys, i, rank);
    FindByRankFinds(keys, keys[i], rank, 0, j);
  }

  /** The first row with the key of row `i` and the given rank, found by walking back from `i`. */
  lemma {:induction false} FirstWithRank<K>(keys: seq<Option<K>>, i: nat, rank: nat) returns (j: nat)
    requires i < |keys| && rank <= Rank(keys, i)
    ensures j <= i && keys[j] == keys[i] && Rank(keys, j) == rank
    decreases i
  {
    if rank == Rank(keys, i) {
      j := i;
    } else {
      var p := LastBefore(keys, i);
      RankOrder(keys, p, i);
      assert Rank(keys, p) == Rank(keys, i) - 1 by {
        assert keys[p + 1..i] == keys[p + 1..i];
        CountNone(keys[p + 1..i], keys[i]);
        assert keys[p..i] == [keys[p]] + keys[p + 1..i];
        CountAppend([keys[p]], keys[p + 1..i], keys[i]);
        assert [keys[p]][..0] == [];
      }
      j := FirstWithRank(keys, p, rank);
    }
  }

  /** The last earlier row of the same group, for a row that is not the first of its group. */
  lemma {:induction false} LastBefore<K>(keys: seq<Option<K>>, i: nat) returns (p: nat)
    requires i < |keys| && Rank(keys, i) > 0
    ensures p < i && keys[p] == keys[i]
    ensures forall q :: p < q < i ==> keys[q] != keys[i]
  {
    p := i - 1;
    while keys[p] != keys[i]
      invariant p < i
      invariant forall q :: p < q < i ==> keys[q] != keys[i]
      invariant Count(keys[..p + 1], keys[i]) == Rank(keys, i)
      decreases p
    {
      assert keys[..p + 1][..p] == keys[..p];
      assert Count(keys[..p], keys[i]) > 0;
      p := p - 1;
    }
  }

  lemma {:induction false} CountNone<K>(s: seq<Option<K>>, k: Option<K>)
    requires forall q :: 0 <= q < |s| ==> s[q] != k
    ensures Count(s, k) == 0
  {
    if s != [] {
      CountNone(s[..|s| - 1], k);
    }
  }

  lemma {:induction false} FindByRankFinds<K>(keys: seq<Option<K>>, k: Option<K>, rank: nat, j: nat, target: nat)
    requires j <= target < |keys| && keys[target] == k && Rank(keys, target) == rank
    ensures FindByRank(keys, k, rank, j).Some?
    decreases |keys| - j
  {
    if j < target && !(keys[j] == k && Count(keys[..j], k) == rank) {
      FindByRankFinds(keys, k, rank, j + 1, target);
    }
  }

  /** With a non-negative lag, the first `lags` rows of every group get null. */
  lemma {:induction false} ShiftLeadingNulls<K, V>(keys: seq<Option<K>>, values: seq<V>, lags: int, i: nat)
    requires |keys| == |values| && i < |keys| && 0 <= lags && Rank(keys, i) < lags
    ensures GroupShift(keys, values, lags)[i].None?
  {
  }

  /**
   * With a non-negative lag, every other row of a group takes the value of the row of
   * its group that lies exactly `lags` group rows earlier.
   */
  lemma {:induction false} ShiftTakesLaggedRow<K, V>(keys: seq<Option<K>>, values: seq<V>, lags: int, i: nat)
    requires |keys| == |values| && i < |keys| && keys[i].Some? && 0 <= lags <= Rank(keys, i)
    ensures exists j :: 0 <= j <= i && keys[j] == keys[i] && Count(keys[j..i], keys[i]) == lags &&
                        GroupShift(keys, values, lags)[i] == Some(values[j])
  {
    RankReached(keys, i, Rank(keys, i) - lags);
    var j := FindByRank(keys, keys[i], Rank(keys, i) - lags, 0).value;
    if j == i {
      assert keys[j..i] == [];
    } else if j < i {
      RankOrder(keys, j, i);
    } else {
      RankOrder(keys, i, j);
      assert false;
    }
    assert GroupShift(keys, values, lags)[i] == Some(values[j]);
  }

  /** With a lag of one, a row takes the value of the nearest earlier row of its group. */
  lemma {:induction false} ShiftByOneTakesPrevious<K, V>(keys: seq<Option<K>>, values: seq<V>, p: nat, i: nat)
    requires |keys| == |values| && p < i < |keys| && keys[i].Some? && keys[p] == keys[i]
    requires forall q :: p < q < i ==> keys[q] != keys[i]
    ensures GroupShift(keys, values, 1)[i] == Some(values[p])
  {
    RankOrder(keys, p, i);
    CountNone(keys[p + 1..i], keys[i]);
    assert keys[p..i] == [keys[p]] + keys[p + 1..i];
    CountAppend([keys[p]], keys[p + 1..i], keys[i]);
    assert [keys[p]][..0] == [];
    var j := FindByRank(keys, keys[i], Rank(keys, i) - 1, 0);
    FindByRankFinds(keys, keys[i], Rank(keys, i) - 1, 0, p);
    if j.value < p {
      RankOrder(keys, j.value, p);
    } else if j.value > p {
      RankOrder(keys, p, j.value);
    }
  }

  /** The first row of a group gets null under any positive lag. */
  lemma {:induction false} ShiftFirstOfGroup<K, V>(keys: seq<Option<K>>, values: seq<V>, lags: int, i: nat)
    requires |keys| == |values| && i < |keys| && 0 < lags
    requires forall q :: 0 <= q < i ==> keys[q] != keys[i]
    ensures GroupShift(keys, values, lags)[i].None?
  {
    CountNone(keys[..i], keys[i]);
  }

  /**
   * The documented example, for any two distinct ids `a` and `b` and any values:
   * ids `a a a b b b b b b` with lag 1 give each value the one before it in its group.
   */
  lemma {:induction false} ShiftExample<K>(a: K, b: K, values: seq<int>)
    requires a != b && |values| == 9
    ensures var r := GroupShift([Some(a), Some(a), Some(a), Some(b), Some(b), Some(b), Some(b), Some(b), Some(b)], values, 1);
            |r| == 9 && r[0] == None && r[1] == Some(values[0]) && r[2] == Some(values[1]) &&
            r[3] == None && r[4] == Some(values[3]) && r[5] == Some(values[4]) &&
            r[6] == Some(values[5]) && r[7] == Some(values[6]) && r[8] == Some(values[7])
  {
    var keys := [Some(a), Some(a), Some(a), Some(b), Some(b), Some(b), Some(b), Some(b), Some(b)];
    ShiftFirstOfGroup(keys, values, 1, 0);
    ShiftByOneTakesPrevious(keys, values, 0, 1);
    ShiftByOneTakesPrevious(keys, values, 1, 2);
    ShiftFirstOfGroup(keys, values, 1, 3);
    ShiftByOneTakesPrevious(keys, values, 3, 4);
    ShiftByOneTakesPrevious(keys, values, 4, 5);
    ShiftByOneTakesPrevious(keys, values, 5, 6);
    ShiftByOneTakesPrevious(keys, values, 6, 7);
    ShiftByOneTakesPrevious(keys, values, 7, 8);
  }
}
