/**
 * A Python dict filled by a loop of `d[key] = value` statements: the assignments are a
 * sequence of pairs, applied in order, so a key assigned twice keeps its last value.
 */
module DictUpdates {

  /** The dict `m` after the assignments `entries`, first to last. */
  function AssignAll<K, V>(m: map<K, V>, entries: seq<(K, V)>): map<K, V> {
    if entries == [] then m
    else
      var last := entries[|entries| - 1];
      AssignAll(m, entries[..|entries| - 1])[last.0 := last.1]
  }

  /** The keys the assignments touch. */
  function KeysOf<K, V>(entries: seq<(K, V)>): set<K> {
    set i | 0 <= i < |entries| :: entries[i].0
  }

  /** The values the assignments store. */
  function ValuesOf<K, V>(entries: seq<(K, V)>): set<V> {
    set i | 0 <= i < |entries| :: entries[i].1
  }

  /** Running two batches of assignments one after the other is running their concatenation. */
  lemma {:induction false} AssignAllAppend<K, V>(m: map<K, V>, a: seq<(K, V)>, b: seq<(K, V)>)
    ensures AssignAll(m, a + b) == AssignAll(AssignAll(m, a), b)
    decreases |b|
  {
    if b == [] {
      assert a + b == a;
    } else {
      var b' := b[..|b| - 1];
      assert (a + b)[..|a + b| - 1] == a + b';
      assert (a + b)[|a + b| - 1] == b[|b| - 1];
      AssignAllAppend(m, a, b');
    }
  }

  /** One assignment, and two in a row. */
  lemma AssignOne<K, V>(m: map<K, V>, x: (K, V))
    ensures AssignAll(m, [x]) == m[x.0 := x.1]
  {
    assert [x][..0] == [];
  }

  lemma AssignTwo<K, V>(m: map<K, V>, x: (K, V), y: (K, V))
    ensures AssignAll(m, [x, y]) == m[x.0 := x.1][y.0 := y.1]
  {
    assert [x, y][..1] == [x];
    AssignOne(m, x);
  }

  lemma KeysOfAppend<K, V>(a: seq<(K, V)>, b: seq<(K, V)>)
    ensures KeysOf(a + b) == KeysOf(a) + KeysOf(b)
  {
    var l, r := KeysOf(a + b), KeysOf(a) + KeysOf(b);
    forall k | k in l
      ensures k in r
    {
      var i :| 0 <= i < |a + b| && (a + b)[i].0 == k;
      if i < |a| {
        assert (a + b)[i] == a[i];
      } else {
        assert (a + b)[i] == b[i - |a|];
      }
    }
    forall k | k in r
      ensures k in l
    {
      if k in KeysOf(a) {
        var i :| 0 <= i < |a| && a[i].0 == k;
        assert (a + b)[i] == a[i];
      } else {
        var i :| 0 <= i < |b| && b[i].0 == k;
        assert (a + b)[|a| + i] == b[i];
      }
    }
  }

  lemma ValuesOfAppend<K, V>(a: seq<(K, V)>, b: seq<(K, V)>)
    ensures ValuesOf(a + b) == ValuesOf(a) + ValuesOf(b)
  {
    var l, r := ValuesOf(a + b), ValuesOf(a) + ValuesOf(b);
    forall v | v in l
      ensures v in r
    {
      var i :| 0 <= i < |a + b| && (a + b)[i].1 == v;
      if i < |a| {
        assert (a + b)[i] == a[i];
      } else {
        assert (a + b)[i] == b[i - |a|];
      }
    }
    forall v | v in r
      ensures v in l
    {
      if v in ValuesOf(a) {
        var i :| 0 <= i < |a| && a[i].1 == v;
        assert (a + b)[i] == a[i];
      } else {
        var i :| 0 <= i < |b| && b[i].1 == v;
        assert (a + b)[|a| + i] == b[i];
      }
    }
  }

  lemma PairKeysValues<K, V>(x: (K, V), y: (K, V))
    ensures KeysOf([x, y]) == {x.0, y.0} && ValuesOf([x, y]) == {x.1, y.1}
  {
    assert [x, y][0] == x && [x, y][1] == y;
  }

  lemma SingleKeysValues<K, V>(x: (K, V))
    ensures KeysOf([x]) == {x.0} && ValuesOf([x]) == {x.1}
  {
    assert [x][0] == x;
  }

  /** The keys afterwards are the keys before and the keys assigned, nothing else. */
  lemma {:induction false} AssignAllKeys<K, V>(m: map<K, V>, entries: seq<(K, V)>)
    ensures AssignAll(m, entries).Keys == m.Keys + KeysOf(entries)
    decreases |entries|
  {
    if entries != [] {
      var init := entries[..|entries| - 1];
      AssignAllKeys(m, init);
      assert KeysOf(entries) == KeysOf(init) + {entries[|entries| - 1].0} by {
        forall i | 0 <= i < |init|
          ensures init[i] == entries[i]
        {
        }
      }
    }
  }

  /** A key assigned for the last time at index `i` holds the value assigned there. */
  lemma {:induction false} AssignAllLastWins<K, V>(m: map<K, V>, entries: seq<(K, V)>, i: nat)
    requires i < |entries|
    requires forall j :: i < j < |entries| ==> entries[j].0 != entries[i].0
    ensures entries[i].0 in AssignAll(m, entries)
    ensures AssignAll(m, entries)[entries[i].0] == entries[i].1
    decreases |entries|
  {
    if i < |entries| - 1 {
      var init := entries[..|entries| - 1];
      assert init[i] == entries[i];
      AssignAllLastWins(m, init, i);
    }
  }

  /** A key no assignment touches keeps its value. */
  lemma {:induction false} AssignAllUntouched<K, V>(m: map<K, V>, entries: seq<(K, V)>, k: K)
    requires k in m && k !in KeysOf(entries)
    ensures k in AssignAll(m, entries) && AssignAll(m, entries)[k] == m[k]
    decreases |entries|
  {
    if entries != [] {
      var init := entries[..|entries| - 1];
      assert k != entries[|entries| - 1].0;
      AssignAllUntouched(m, init, k);
    }
  }

  /** Every value afterwards was there before or was assigned. */
  lemma {:induction false} AssignAllValues<K, V>(m: map<K, V>, entries: seq<(K, V)>)
    ensures AssignAll(m, entries).Values <= m.Values + ValuesOf(entries)
    decreases |entries|
  {
    if entries != [] {
      var init := entries[..|entries| - 1];
      var last := entries[|entries| - 1];
      AssignAllValues(m, init);
      assert ValuesOf(init) <= ValuesOf(entries) by {
        forall i | 0 <= i < |init|
          ensures init[i] == entries[i]
        {
        }
      }
      assert last.1 in ValuesOf(entries);
      var r := AssignAll(m, entries);
      forall v | v in r.Values
        ensures v in m.Values + ValuesOf(entries)
      {
        var k :| k in r && r[k] == v;
        if k == last.0 {
          assert v == last.1;
        } else {
          assert k in AssignAll(m, init) && AssignAll(m, init)[k] == v;
          assert v in AssignAll(m, init).Values;
        }
      }
    }
  }

  /** When every assignment stores `f` of its key, so does the dict, whatever the order and repetitions. */
  lemma {:induction false} AssignAllFunctional<K, V>(m: map<K, V>, entries: seq<(K, V)>, f: K -> V)
    requires forall k :: k in m ==> m[k] == f(k)
    requires forall i :: 0 <= i < |entries| ==> entries[i].1 == f(entries[i].0)
    ensures forall k :: k in AssignAll(m, entries) ==> AssignAll(m, entries)[k] == f(k)
    decreases |entries|
  {
    if entries != [] {
      var init := entries[..|entries| - 1];
      assert forall i :: 0 <= i < |init| ==> init[i] == entries[i];
      AssignAllFunctional(m, init, f);
    }
  }
}
