/**
 * The table helpers of `misc_tools` that work on a DataFrame in place: a frame is an
 * ordered list of distinct column names, the cells of each column, and a row count.
 * `pop`, `insert`, `df[name] = ...` and `del df[name]` are the column-level updates the
 * modelled functions perform.
 */
module Frames {
  import opened Outcomes
  import opened Text
  import Groups

  /** One cell of a column: missing (NaN/None), a number, or a string. */
  datatype Cell = Null | Num(x: real) | Text(s: string)

  /** The result of dividing two floating-point sums. */
  datatype Quotient = Finite(value: real) | NaN | PosInf | NegInf

  predicate Distinct(s: seq<string>) {
    forall i, j :: 0 <= i < j < |s| ==> s[i] != s[j]
  }

  /** The first name, in list order, that occurs again later in the list. */
  function FirstRepeated(s: seq<string>): (r: Option<string>)
    ensures r.None? <==> Distinct(s)
    ensures r.Some? ==> r.value in s
  {
    if s == [] then None
    else if s[0] in s[1..] then
      assert exists j :: 1 <= j < |s| && s[j] == s[0];
      Some(s[0])
    else
      var r := FirstRepeated(s[1..]);
      assert forall i :: 1 <= i < |s| ==> s[i] == s[1..][i - 1];
      r
  }

  // ------------------------------------------------------------ column lists

  /** `s` without `x`. */
  function Remove(s: seq<string>, x: string): (r: seq<string>)
    ensures forall y :: y in r <==> y in s && y != x
  {
    if s == [] then [] else (if s[0] == x then [] else [s[0]]) + Remove(s[1..], x)
  }

  /** `s` without any name of `cols`, in the original order. */
  function Without(s: seq<string>, cols: seq<string>): (r: seq<string>)
    ensures forall y :: y in r <==> y in s && y !in cols
  {
    if s == [] then [] else (if s[0] in cols then [] else [s[0]]) + Without(s[1..], cols)
  }

  /** `df.insert(pos, name, ...)` on the column list. */
  function InsertAt(s: seq<string>, pos: nat, x: string): (r: seq<string>)
    requires pos <= |s|
    ensures |r| == |s| + 1 && r[pos] == x && r[..pos] == s[..pos] && r[pos + 1..] == s[pos..]
  {
    s[..pos] + [x] + s[pos..]
  }

  /** `move_column_inplace(df, x, pos=0)` on the column list. */
  function MoveFront(s: seq<string>, x: string): seq<string> {
    InsertAt(Remove(s, x), 0, x)
  }

  /** The column list after moving `cols[|cols| - 1]`, ..., `cols[0]` to the front, in that order. */
  function MovedToFront(s: seq<string>, cols: seq<string>): seq<string> {
    if cols == [] then s else MoveFront(MovedToFront(s, cols[1..]), cols[0])
  }

  lemma {:induction false} RemoveDistinct(s: seq<string>, x: string)
    requires Distinct(s)
    ensures Distinct(Remove(s, x))
    ensures x in s ==> |Remove(s, x)| == |s| - 1
    ensures x !in s ==> Remove(s, x) == s
  {
    if s != [] {
      RemoveDistinct(s[1..], x);
      var r := Remove(s, x);
      if s[0] != x {
        assert r == [s[0]] + Remove(s[1..], x);
        assert s[0] !in Remove(s[1..], x);
      }
    }
  }

  lemma InsertDistinct(s: seq<string>, pos: nat, x: string)
    requires Distinct(s) && x !in s && pos <= |s|
    ensures Distinct(InsertAt(s, pos, x))
  {
    var r := InsertAt(s, pos, x);
    forall i, j | 0 <= i < j < |r| ensures r[i] != r[j] {
      if i != pos && j != pos {
        var i', j' := if i < pos then i else i - 1, if j < pos then j else j - 1;
        assert r[i] == s[i'] && r[j] == s[j'];
      }
    }
  }

  lemma {:induction false} RemoveAppend(a: seq<string>, b: seq<string>, x: string)
    ensures Remove(a + b, x) == Remove(a, x) + Remove(b, x)
  {
    if a == [] {
      assert a + b == b;
    } else {
      assert (a + b)[1..] == a[1..] + b;
      RemoveAppend(a[1..], b, x);
    }
  }

  lemma {:induction false} WithoutNothing(s: seq<string>)
    ensures Without(s, []) == s
  {
    if s != [] {
      WithoutNothing(s[1..]);
    }
  }

  lemma {:induction false} RemoveWithout(s: seq<string>, cols: seq<string>, x: string)
    ensures Remove(Without(s, cols), x) == Without(s, [x] + cols)
  {
    if s != [] {
      RemoveAppend(if s[0] in cols then [] else [s[0]], Without(s[1..], cols), x);
      RemoveWithout(s[1..], cols, x);
    }
  }

  lemma {:induction false} MoveFrontKeeps(s: seq<string>, x: string)
    requires Distinct(s) && x in s
    ensures Distinct(MoveFront(s, x)) && |MoveFront(s, x)| == |s|
    ensures forall y :: y in MoveFront(s, x) <==> y in s
  {
    RemoveDistinct(s, x);
  }

  /** Moving names that are all present keeps the same distinct names. */
  lemma {:induction false} MovedToFrontKeeps(s: seq<string>, cols: seq<string>)
    requires Distinct(s) && forall k :: 0 <= k < |cols| ==> cols[k] in s
    ensures Distinct(MovedToFront(s, cols)) && |MovedToFront(s, cols)| == |s|
    ensures forall y :: y in MovedToFront(s, cols) <==> y in s
  {
    if cols != [] {
      MovedToFrontKeeps(s, cols[1..]);
      MoveFrontKeeps(MovedToFront(s, cols[1..]), cols[0]);
    }
  }

  /**
   * `move_columns_to_front(df, cols)` with distinct names that are all present: the
   * columns become `cols`, in order, followed by the remaining columns in their
   * original order.
   */
  lemma {:induction false} MovedToFrontOrder(s: seq<string>, cols: seq<string>)
    requires Distinct(s) && Distinct(cols) && forall k :: 0 <= k < |cols| ==> cols[k] in s
    ensures MovedToFront(s, cols) == cols + Without(s, cols)
  {
    if cols == [] {
      WithoutNothing(s);
    } else {
      var x, t := cols[0], cols[1..];
      DistinctTail(cols);
      MovedToFrontOrder(s, t);
      MoveFrontOfPrefix(t, Without(s, t), x);
      RemoveWithout(s, t, x);
      assert [x] + t == cols;
    }
  }

  lemma DistinctTail(cols: seq<string>)
    requires Distinct(cols) && cols != []
    ensures Distinct(cols[1..]) && cols[0] !in cols[1..]
  {
    var t := cols[1..];
    forall k | 0 <= k < |t| ensures t[k] != cols[0] {
      assert t[k] == cols[k + 1];
    }
  }

  lemma MoveFrontOfPrefix(t: seq<string>, rest: seq<string>, x: string)
    requires x !in t
    ensures MoveFront(t + rest, x) == [x] + t + Remove(rest, x)
  {
    RemoveAppend(t, rest, x);
    RemoveAbsent(t, x);
  }

  // ------------------------------------------------------------ weighted average, on columns

  predicate NoText(col: seq<Cell>) {
    forall i :: 0 <= i < |col| ==> !col[i].Text?
  }

  /** `data[data_col] * data[weight_col]`: null where either factor is null. */
  function Times(x: seq<Cell>, w: seq<Cell>): (r: seq<Cell>)
    requires |x| == |w| && NoText(x) && NoText(w)
    ensures |r| == |x| && NoText(r)
  {
    seq(|x|, i requires 0 <= i < |x| =>
      if x[i].Null? || w[i].Null? then Null else Num(x[i].x * w[i].x))
  }

  /** `data[weight_col] * pd.notnull(data[data_col])`: the weight, zero where the data is null. */
  function WeightWhereNotNull(w: seq<Cell>, x: seq<Cell>): (r: seq<Cell>)
    requires |x| == |w| && NoText(w)
    ensures |r| == |w|
  {
    seq(|w|, i requires 0 <= i < |w| =>
      if w[i].Null? then Null else if x[i].Null? then Num(0.0) else w[i])
  }

  /** `groupby(...)[col].sum()` for the group `g`: null cells are skipped. */
  function GroupTotal(keys: seq<Cell>, vals: seq<Cell>, g: Cell): real
    requires |keys| == |vals|
  {
    if keys == [] then 0.0
    else
      var n := |keys| - 1;
      GroupTotal(keys[..n], vals[..n], g) + (if keys[n] == g && vals[n].Num? then vals[n].x else 0.0)
  }

  /** Floating-point division: zero over zero is NaN, anything else over zero is infinite. */
  function Divide(a: real, b: real): (q: Quotient)
    ensures q.Finite? <==> b != 0.0
  {
    if b != 0.0 then Finite(a / b)
    else if a == 0.0 then NaN
    else if a > 0.0 then PosInf
    else NegInf
  }

  function KeySet(keys: seq<Cell>): set<Cell> {
    set i | 0 <= i < |keys| :: keys[i]
  }

  /** `g[tw].sum() / g[ww].sum()` for every non-null group key. */
  function GroupQuotients(keys: seq<Cell>, tw: seq<Cell>, ww: seq<Cell>): (m: map<Cell, Quotient>)
    requires |keys| == |tw| == |ww|
    ensures forall g :: g in m <==> g != Null && g in keys
  {
    map g | g in KeySet(keys) && g != Null :: Divide(GroupTotal(keys, tw, g), GroupTotal(keys, ww, g))
  }

  /** The merge back onto the rows: a row with a null key finds no group and gets NaN. */
  function PerRow(keys: seq<Cell>, means: map<Cell, Quotient>): (r: seq<Quotient>)
    ensures |r| == |keys|
  {
    seq(|keys|, i requires 0 <= i < |keys| => if keys[i] in means then means[keys[i]] else NaN)
  }

  /** The reference numerator: Σ x·w over the rows of group `g` where neither x nor w is null. */
  function WeightedNumerator(keys: seq<Cell>, x: seq<Cell>, w: seq<Cell>, g: Cell): real
    requires |keys| == |x| == |w|
  {
    if keys == [] then 0.0
    else
      var n := |keys| - 1;
      WeightedNumerator(keys[..n], x[..n], w[..n], g) +
      (if keys[n] == g && x[n].Num? && w[n].Num? then x[n].x * w[n].x else 0.0)
  }

  /** The reference denominator: Σ w over the same rows. */
  function WeightedDenominator(keys: seq<Cell>, x: seq<Cell>, w: seq<Cell>, g: Cell): real
    requires |keys| == |x| == |w|
  {
    if keys == [] then 0.0
    else
      var n := |keys| - 1;
      WeightedDenominator(keys[..n], x[..n], w[..n], g) +
      (if keys[n] == g && x[n].Num? && w[n].Num? then w[n].x else 0.0)
  }

  lemma {:induction false} TimesTotal(keys: seq<Cell>, x: seq<Cell>, w: seq<Cell>, g: Cell)
    requires |keys| == |x| == |w| && NoText(x) && NoText(w)
    ensures GroupTotal(keys, Times(x, w), g) == WeightedNumerator(keys, x, w, g)
    ensures GroupTotal(keys, WeightWhereNotNull(w, x), g) == WeightedDenominator(keys, x, w, g)
  {
    if keys != [] {
      var n := |keys| - 1;
      assert NoText(x[..n]) && NoText(w[..n]);
      assert Times(x, w)[..n] == Times(x[..n], w[..n]) by {
        forall i | 0 <= i < n ensures Times(x, w)[..n][i] == Times(x[..n], w[..n])[i] {
          assert x[..n][i] == x[i] && w[..n][i] == w[i];
        }
      }
      assert WeightWhereNotNull(w, x)[..n] == WeightWhereNotNull(w[..n], x[..n]) by {
        forall i | 0 <= i < n ensures WeightWhereNotNull(w, x)[..n][i] == WeightWhereNotNull(w[..n], x[..n])[i] {
          assert x[..n][i] == x[i] && w[..n][i] == w[i];
        }
      }
      TimesTotal(keys[..n], x[..n], w[..n], g);
    }
  }

  /**
   * The per-group result of `groupby_weighted_average` is Σx·w / Σw over the rows of the
   * group where neither the data nor the weight is null.
   */
  lemma {:induction false} WeightedAverageIsReference(keys: seq<Cell>, x: seq<Cell>, w: seq<Cell>, g: Cell)
    requires |keys| == |x| == |w| && NoText(x) && NoText(w) && g != Null && g in keys
    ensures GroupQuotients(keys, Times(x, w), WeightWhereNotNull(w, x))[g] ==
            Divide(WeightedNumerator(keys, x, w, g), WeightedDenominator(keys, x, w, g))
  {
    TimesTotal(keys, x, w, g);
  }

  /** The documented example: RECEIVED has rates 2 and 3 on 100 and 200, DELIVERED has 2 on 100. */
  const ExampleKeys: seq<Cell> := [Text("RECEIVED"), Text("RECEIVED"), Text("DELIVERED")]
  const ExampleRates: seq<Cell> := [Num(2.0), Num(3.0), Num(2.0)]
  const ExampleWeights: seq<Cell> := [Num(100.0), Num(200.0), Num(100.0)]

  /** The reference sums of the example, row by row. */
  lemma {:induction false} ExampleSums()
    ensures WeightedNumerator(ExampleKeys, ExampleRates, ExampleWeights, Text("RECEIVED")) == 800.0
    ensures WeightedDenominator(ExampleKeys, ExampleRates, ExampleWeights, Text("RECEIVED")) == 300.0
    ensures WeightedNumerator(ExampleKeys, ExampleRates, ExampleWeights, Text("DELIVERED")) == 200.0
    ensures WeightedDenominator(ExampleKeys, ExampleRates, ExampleWeights, Text("DELIVERED")) == 100.0
  {
    var keys, x, w := ExampleKeys, ExampleRates, ExampleWeights;
    var received, delivered := Text("RECEIVED"), Text("DELIVERED");
    assert keys[..2] == [received, received] && x[..2] == [Num(2.0), Num(3.0)] && w[..2] == [Num(100.0), Num(200.0)];
    assert keys[..2][..1] == [received] && x[..2][..1] == [Num(2.0)] && w[..2][..1] == [Num(100.0)];
    assert keys[..2][..1][..0] == [] && x[..2][..1][..0] == [] && w[..2][..1][..0] == [];
    var k1, x1, w1 := keys[..2][..1], x[..2][..1], w[..2][..1];
    assert WeightedNumerator(k1[..0], x1[..0], w1[..0], received) == 0.0;
    assert WeightedDenominator(k1[..0], x1[..0], w1[..0], received) == 0.0;
    assert WeightedNumerator(k1[..0], x1[..0], w1[..0], delivered) == 0.0;
    assert WeightedDenominator(k1[..0], x1[..0], w1[..0], delivered) == 0.0;
    assert WeightedNumerator(k1, x1, w1, received) == 200.0;
    assert WeightedDenominator(k1, x1, w1, received) == 100.0;
    assert WeightedNumerator(k1, x1, w1, delivered) == 0.0;
    assert WeightedDenominator(k1, x1, w1, delivered) == 0.0;
    assert WeightedNumerator(keys[..2], x[..2], w[..2], received) == 800.0;
    assert WeightedDenominator(keys[..2], x[..2], w[..2], received) == 300.0;
    assert WeightedNumerator(keys[..2], x[..2], w[..2], delivered) == 0.0;
    assert WeightedDenominator(keys[..2], x[..2], w[..2], delivered) == 0.0;
  }

  /** `groupby_weighted_average` on the example gives RECEIVED 800/300 and DELIVERED 2. */
  lemma {:induction false} WeightedAverageExample()
    ensures GroupQuotients(ExampleKeys, Times(ExampleRates, ExampleWeights), WeightWhereNotNull(ExampleWeights, ExampleRates)) ==
              map[Text("RECEIVED") := Finite(800.0 / 300.0), Text("DELIVERED") := Finite(2.0)]
  {
    var keys, x, w := ExampleKeys, ExampleRates, ExampleWeights;
    var received, delivered := Text("RECEIVED"), Text("DELIVERED");
    ExampleSums();
    TimesTotal(keys, x, w, received);
    TimesTotal(keys, x, w, delivered);
    assert KeySet(keys) == {received, delivered};
  }

  // ------------------------------------------------------------ lagged columns, on columns

  /** The grouping key of row `i`: the values of the id columns, or `None` when one of them is null. */
  function RowKey(cells: map<string, seq<Cell>>, idCols: seq<string>, rows: nat, i: nat): Option<seq<Cell>>
    requires i < rows
    requires forall k :: 0 <= k < |idCols| ==> idCols[k] in cells && |cells[idCols[k]]| == rows
  {
    var key := seq(|idCols|, k requires 0 <= k < |idCols| => cells[idCols[k]][i]);
    if Null in key then None else Some(key)
  }

  function RowKeys(cells: map<string, seq<Cell>>, idCols: seq<string>, rows: nat): (r: seq<Option<seq<Cell>>>)
    requires forall k :: 0 <= k < |idCols| ==> idCols[k] in cells && |cells[idCols[k]]| == rows
    ensures |r| == rows
  {
    seq(rows, i requires 0 <= i < rows => RowKey(cells, idCols, rows, i))
  }

  /** `groupby(id_columns)[col].shift(lags)`, with null where there is no lagged row. */
  function ShiftColumn(keys: seq<Option<seq<Cell>>>, col: seq<Cell>, lags: int): (r: seq<Cell>)
    requires |keys| == |col|
    ensures |r| == |col|
  {
    var shifted := Groups.GroupShift(keys, col, lags);
    seq(|col|, i requires 0 <= i < |col| => if shifted[i].Some? then shifted[i].value else Null)
  }

  /** `f"{prefix}{lags}_{col}"`. */
  function LagName(prefix: string, lags: int, col: string): string {
    prefix + IntString(lags) + "_" + col
  }

  /** The names of the lagged columns, one per column to lag. */
  function LagNames(prefix: string, lags: int, cols: seq<string>): (r: seq<string>)
    ensures |r| == |cols| && forall k :: 0 <= k < |cols| ==> r[k] == LagName(prefix, lags, cols[k])
  {
    seq(|cols|, k requires 0 <= k < |cols| => LagName(prefix, lags, cols[k]))
  }

  /** The column list after assigning each name in turn: a new name is appended, an existing one stays put. */
  function Assigned(s: seq<string>, names: seq<string>): (r: seq<string>)
    ensures forall y :: y in r <==> y in s || y in names
    decreases |names|
  {
    if names == [] then s
    else
      var last := names[|names| - 1];
      var before := Assigned(s, names[..|names| - 1]);
      if last in before then before else before + [last]
  }

  lemma AssignedStep(s: seq<string>, names: seq<string>, i: nat)
    requires i < |names|
    ensures Assigned(s, names[..i + 1]) ==
              if names[i] in Assigned(s, names[..i]) then Assigned(s, names[..i])
              else Assigned(s, names[..i]) + [names[i]]
  {
    assert names[..i + 1][..i] == names[..i] && names[..i + 1][i] == names[i];
  }

  /** The keyword arguments `_with_lagged_column_no_resample` accepts. */
  const NoResampleParameters: seq<string> := ["df", "columns_to_lag", "id_columns", "lags", "prefix"]

  /** The keyword arguments `with_lagged_columns(..., resample=False)` passes to it. */
  const NoResampleCallAsWritten: seq<string> := ["df", "columns_to_lag", "id_columns", "lags", "date_col", "prefix"]

  /** The same call without `date_col`. */
  const NoResampleCallCorrected: seq<string> := ["df", "columns_to_lag", "id_columns", "lags", "prefix"]

  /** Python's keyword binding: the first keyword the function does not declare raises TypeError. */
  function BindKeywords(parameters: seq<string>, keywords: seq<string>): (r: Result<()>)
    ensures r.Ok? <==> forall k :: 0 <= k < |keywords| ==> keywords[k] in parameters
  {
    if keywords == [] then Ok(())
    else if keywords[0] !in parameters then
      Err(TypeError("_with_lagged_column_no_resample() got an unexpected keyword argument '" + keywords[0] + "'"))
    else
      var r := BindKeywords(parameters, keywords[1..]);
      assert forall k :: 1 <= k < |keywords| ==> keywords[k] == keywords[1..][k - 1];
      r
  }

  /** As written, the non-resampling branch of `with_lagged_columns` always fails on `date_col`. */
  lemma NoResampleCallFails()
    ensures BindKeywords(NoResampleParameters, NoResampleCallAsWritten) ==
            Err(TypeError("_with_lagged_column_no_resample() got an unexpected keyword argument 'date_col'"))
  {
    var p, c := NoResampleParameters, NoResampleCallAsWritten;
    assert c[0] == p[0] && c[1] == p[1] && c[2] == p[2] && c[3] == p[3];
    assert c[1..][1..][1..][1..] == c[4..] && c[4..][0] == "date_col";
    assert "date_col" !in p by {
      assert |p[0]| == 2 && "date_col"[0] != p[1][0] && "date_col"[0] != p[2][0];
      assert "date_col"[0] != p[3][0] && "date_col"[0] != p[4][0];
    }
    var message := "_with_lagged_column_no_resample() got an unexpected keyword argument '";
    assert BindKeywords(p, c[4..]) == Err(TypeError(message + "date_col" + "'"));
    assert message + "date_col" + "'" ==
           "_with_lagged_column_no_resample() got an unexpected keyword argument 'date_col'";
    assert BindKeywords(p, c) == BindKeywords(p, c[1..]);
    assert BindKeywords(p, c[1..]) == BindKeywords(p, c[1..][1..]);
    assert BindKeywords(p, c[1..][1..]) == BindKeywords(p, c[1..][1..][1..]);
    assert BindKeywords(p, c[1..][1..][1..]) == BindKeywords(p, c[4..]);
  }

  /** Without `date_col` the call binds. */
  lemma NoResampleCallBinds()
    ensures BindKeywords(NoResampleParameters, NoResampleCallCorrected).Ok?
  {
    var p := NoResampleParameters;
    assert forall k :: 0 <= k < |NoResampleCallCorrected| ==> NoResampleCallCorrected[k] == p[k];
  }

  // ------------------------------------------------------------ the frame

  class Frame {
    var columns: seq<string>
    var cells: map<string, seq<Cell>>
    var rows: nat

    /** Distinct column names, exactly one cell list per column, all of the same length. */
    predicate Valid()
      reads this
    {
      Distinct(columns) &&
      (forall c :: c in cells ==> c in columns) &&
      (forall c :: c in columns ==> c in cells && |cells[c]| == rows)
    }

    constructor (columns0: seq<string>, cells0: map<string, seq<Cell>>, rows0: nat)
      requires Distinct(columns0)
      requires forall c :: c in cells0 ==> c in columns0
      requires forall c :: c in columns0 ==> c in cells0 && |cells0[c]| == rows0
      ensures Valid()
      ensures columns == columns0 && cells == cells0 && rows == rows0
    {
      columns := columns0;
      cells := cells0;
      rows := rows0;
    }

    /** `df[name] = col`: an existing column is overwritten where it stands, a new one is appended. */
    method SetColumn(name: string, col: seq<Cell>)
      requires Valid() && |col| == rows
      modifies this
      ensures Valid() && rows == old(rows) && cells == old(cells)[name := col]
      ensures columns == if name in old(columns) then old(columns) else old(columns) + [name]
    {
      if name !in cells {
        columns := columns + [name];
      }
      cells := cells[name := col];
    }

    /** `del df[name]`. */
    method DeleteColumn(name: string)
      requires Valid() && name in columns
      modifies this
      ensures Valid() && rows == old(rows)
      ensures columns == Remove(old(columns), name) && cells == old(cells) - {name}
    {
      RemoveDistinct(columns, name);
      columns := Remove(columns, name);
      cells := cells - {name};
    }

    /**
     * `move_column_inplace(df, col, pos)`: `df.pop(col)` raises KeyError for a missing
     * column and changes nothing; `df.insert(pos, ...)` raises IndexError when `pos` is
     * past the end of the remaining columns, after the column has been popped.
     */
    method MoveColumn(col: string, pos: nat) returns (r: Result<()>)
      requires Valid()
      modifies this
      ensures Valid() && rows == old(rows)
      ensures col !in old(columns) ==> r == Err(KeyError(col)) && columns == old(columns) && cells == old(cells)
      ensures col in old(columns) && pos <= |Remove(old(columns), col)| ==>
                r == Ok(()) && columns == InsertAt(Remove(old(columns), col), pos, col) && cells == old(cells)
      ensures col in old(columns) && pos > |Remove(old(columns), col)| ==>
                r.Err? && r.error.IndexError? &&
                columns == Remove(old(columns), col) && cells == old(cells) - {col}
    {
      if col !in cells {
        return Err(KeyError(col));
      }
      var popped := Pop(col);
      if pos > |columns| {
        return Err(IndexError("index " + IntString(pos) + " is out of bounds for axis 0 with size " + IntString(|columns|)));
      }
      Insert(pos, col, popped);
      r := Ok(());
    }

    /** `df.pop(name)`: the column is removed and its cells returned. */
    method Pop(name: string) returns (popped: seq<Cell>)
      requires Valid() && name in columns
      modifies this
      ensures Valid() && rows == old(rows) && popped == old(cells)[name] && |popped| == rows
      ensures columns == Remove(old(columns), name) && cells == old(cells) - {name}
    {
      popped := cells[name];
      RemoveDistinct(columns, name);
      columns := Remove(columns, name);
      cells := cells - {name};
    }

    /** `df.insert(pos, name, col)` for a name the frame does not have. */
    method Insert(pos: nat, name: string, col: seq<Cell>)
      requires Valid() && name !in columns && pos <= |columns| && |col| == rows
      modifies this
      ensures Valid() && rows == old(rows)
      ensures columns == InsertAt(old(columns), pos, name) && cells == old(cells)[name := col]
    {
      InsertDistinct(columns, pos, name);
      columns := InsertAt(columns, pos, name);
      cells := cells[name := col];
    }

    /**
     * `move_columns_to_front(df, cols)`: the names are moved to position 0 from the last
     * to the first; the first missing name met that way raises KeyError, after the names
     * behind it have been moved.
     */
    method MoveColumnsToFront(cols: seq<string>) returns (r: Result<()>)
      requires Valid()
      modifies this
      ensures Valid() && rows == old(rows) && cells == old(cells)
      ensures r.Ok? <==> forall k :: 0 <= k < |cols| ==> cols[k] in old(columns)
      ensures r.Ok? ==> columns == MovedToFront(old(columns), cols)
      ensures r.Ok? && Distinct(cols) ==> columns == cols + Without(old(columns), cols)
      ensures r.Err? ==>
                exists k :: 0 <= k < |cols| && cols[k] !in old(columns) && r == Err(KeyError(cols[k])) &&
                            (forall m :: k < m < |cols| ==> cols[m] in old(columns)) &&
                            columns == MovedToFront(old(columns), cols[k + 1..])
    {
      var i := |cols|;
      while i > 0
        invariant 0 <= i <= |cols|
        invariant Valid() && rows == old(rows) && cells == old(cells)
        invariant forall m :: i <= m < |cols| ==> cols[m] in old(columns)
        invariant columns == MovedToFront(old(columns), cols[i..])
        decreases i
      {
        MovedToFrontKeeps(old(columns), cols[i..]);
        i := i - 1;
        assert cols[i..][1..] == cols[i + 1..];
        r := MoveColumn(cols[i], 0);
        if r.Err? {
          assert cols[i] !in old(columns);
          return;
        }
      }
      r := Ok(());
      if Distinct(cols) {
        MovedToFrontOrder(old(columns), cols);
      }
    }

    /**
     * `groupby_weighted_average(data_col, weight_col, by_col, data, transform)`: two
     * temporary columns are added to the frame, summed per group of `by_col`, divided,
     * and deleted again.  A missing data or weight column raises KeyError before
     * anything changes; a missing `by_col` raises KeyError with the temporary columns
     * still in place.
     */
    method GroupbyWeightedAverage(dataCol: string, weightCol: string, byCol: string, transform: bool)
      returns (r: Result<Averages>)
      requires Valid()
      modifies this
      ensures Valid() && rows == old(rows)
      ensures dataCol !in old(columns) ==> r == Err(KeyError(dataCol)) && columns == old(columns) && cells == old(cells)
      ensures dataCol in old(columns) && weightCol !in old(columns) ==>
                r == Err(KeyError(weightCol)) && columns == old(columns) && cells == old(cells)
      ensures NoTemporaryClash(old(columns), byCol) ==>
                (r.Ok? <==> dataCol in old(columns) && weightCol in old(columns) && byCol in old(columns) &&
                            NoText(old(cells)[dataCol]) && NoText(old(cells)[weightCol]))
      ensures NoTemporaryClash(old(columns), byCol) && r.Ok? ==>
                columns == old(columns) && cells == old(cells) &&
                var x, w, keys := old(cells)[dataCol], old(cells)[weightCol], old(cells)[byCol];
                var means := GroupQuotients(keys, Times(x, w), WeightWhereNotNull(w, x));
                r.value == if transform then PerRowMeans(PerRow(keys, means)) else ByGroup(means)
      ensures NoTemporaryClash(old(columns), byCol) &&
              dataCol in old(columns) && weightCol in old(columns) &&
              NoText(old(cells)[dataCol]) && NoText(old(cells)[weightCol]) && byCol !in old(columns) ==>
                r == Err(KeyError(byCol)) && columns == old(columns) + [TimesWeight, WeightNotNull]
    {
      if dataCol !in cells {
        return Err(KeyError(dataCol));
      }
      if weightCol !in cells {
        return Err(KeyError(weightCol));
      }
      var x, w := cells[dataCol], cells[weightCol];
      if !NoText(x) || !NoText(w) {
        return Err(TypeError("can't multiply sequence by non-int of type 'float'"));
      }
      ghost var free := NoTemporaryClash(columns, byCol);
      ghost var columns0, cells0 := columns, cells;
      TemporaryNamesDiffer();
      AddTemporaryColumns(dataCol, weightCol);
      var grouped := GroupMeansAndDrop(byCol);
      if grouped.Err? {
        return Err(grouped.error);
      }
      var means := grouped.value;
      if free {
        RestoredColumns(columns0);
        MapRestored(cells0, TimesWeight, WeightNotNull, Times(x, w), WeightWhereNotNull(w, x));
      }
      if !transform {
        return Ok(ByGroup(means));
      }
      if byCol !in cells {
        return Err(KeyError(byCol));
      }
      r := Ok(PerRowMeans(PerRow(cells[byCol], means)));
    }

    /**
     * The per-group quotient of the two temporary columns' sums, grouped by `byCol`,
     * after which both temporary columns are deleted; KeyError when `byCol` is missing.
     */
    method GroupMeansAndDrop(byCol: string) returns (r: Result<map<Cell, Quotient>>)
      requires Valid() && TimesWeight in columns && WeightNotNull in columns
      modifies this
      ensures Valid() && rows == old(rows)
      ensures r.Err? ==> byCol !in old(columns) && r == Err(KeyError(byCol)) &&
                         columns == old(columns) && cells == old(cells)
      ensures r.Ok? ==>
                byCol in old(columns) &&
                r.value == GroupQuotients(old(cells)[byCol], old(cells)[TimesWeight], old(cells)[WeightNotNull]) &&
                columns == Remove(Remove(old(columns), TimesWeight), WeightNotNull) &&
                cells == old(cells) - {TimesWeight} - {WeightNotNull}
    {
      if byCol !in cells {
        return Err(KeyError(byCol));
      }
      var keys, tw, ww := cells[byCol], cells[TimesWeight], cells[WeightNotNull];
      r := Ok(GroupQuotients(keys, tw, ww));
      TemporaryNamesDiffer();
      DeleteColumn(TimesWeight);
      DeleteColumn(WeightNotNull);
    }

    /**
     * The two temporary columns of `groupby_weighted_average`: data times weight, then the
     * weight where the data is not null, each read back from the frame as it is by then.
     */
    method AddTemporaryColumns(dataCol: string, weightCol: string)
      requires Valid() && dataCol in columns && weightCol in columns
      requires NoText(cells[dataCol]) && NoText(cells[weightCol])
      modifies this
      ensures Valid() && rows == old(rows)
      ensures TimesWeight in cells && WeightNotNull in cells
      ensures TimesWeight !in old(columns) && WeightNotNull !in old(columns) ==>
                var x, w := old(cells)[dataCol], old(cells)[weightCol];
                columns == old(columns) + [TimesWeight, WeightNotNull] &&
                cells == old(cells)[TimesWeight := Times(x, w)][WeightNotNull := WeightWhereNotNull(w, x)]
    {
      var x, w := cells[dataCol], cells[weightCol];
      TemporaryNamesDiffer();
      SetColumn(TimesWeight, Times(x, w));
      var x2, w2 := cells[dataCol], cells[weightCol];
      SetColumn(WeightNotNull, WeightWhereNotNull(w2, x2));
    }

    /**
     * `_with_lagged_column_no_resample(df, columns_to_lag, id_columns, lags, prefix)`:
     * a copy of the frame with one column `{prefix}{lags}_{col}` per lagged column,
     * holding the group-wise shift of that column; the frame itself is not changed.
     */
    method WithLaggedColumnNoResample(columnsToLag: seq<string>, idColumns: seq<string>, lags: int, prefix: string)
      returns (r: Result<Frame>)
      requires Valid()
      ensures idColumns == [] ==> r == Err(ValueError("No group keys passed!"))
      ensures r.Ok? <==> idColumns != [] &&
                         (forall k :: 0 <= k < |idColumns| ==> idColumns[k] in columns) &&
                         (forall k :: 0 <= k < |columnsToLag| ==> columnsToLag[k] in columns) &&
                         Distinct(columnsToLag)
      ensures idColumns != [] && (forall k :: 0 <= k < |idColumns| ==> idColumns[k] in columns) &&
              (forall k :: 0 <= k < |columnsToLag| ==> columnsToLag[k] in columns) && !Distinct(columnsToLag) ==>
                r.Err? && r.error.ValueError?
      ensures r.Ok? ==>
                fresh(r.value) && r.value.Valid() && r.value.rows == rows &&
                var names := LagNames(prefix, lags, columnsToLag);
                r.value.columns == Assigned(columns, names) &&
                (forall c :: c in cells && c !in names ==> c in r.value.cells && r.value.cells[c] == cells[c]) &&
                (forall k :: 0 <= k < |columnsToLag| ==>
                   names[k] in r.value.cells && r.value.cells[names[k]] == ShiftColumn(RowKeys(cells, idColumns, rows), cells[columnsToLag[k]], lags))
    {
      if idColumns == [] {
        return Err(ValueError("No group keys passed!"));
      }
      var missing := FirstMissing(idColumns);
      if missing.Some? {
        return Err(KeyError(missing.value));
      }
      missing := FirstMissing(columnsToLag);
      if missing.Some? {
        return Err(KeyError(missing.value));
      }
      var repeated := FirstRepeated(columnsToLag);
      if repeated.Some? {
        return Err(ValueError("Cannot set a DataFrame with multiple columns to the single column " +
                              LagName(prefix, lags, repeated.value)));
      }
      var keys := RowKeys(cells, idColumns, rows);
      var names := LagNames(prefix, lags, columnsToLag);
      var cs := cells;
      var shifted := seq(|columnsToLag|, k requires 0 <= k < |columnsToLag| => ShiftColumn(keys, cs[columnsToLag[k]], lags));
      forall k, m | 0 <= k < |names| && 0 <= m < |names| && names[k] == names[m]
        ensures shifted[k] == shifted[m]
      {
        LagNameInjective(prefix, lags, columnsToLag[k], columnsToLag[m]);
      }
      var copy := new Frame(columns, cells, rows);
      copy.AssignAll(names, shifted);
      r := Ok(copy);
    }

    /** `df[name] = col` for each name and column in turn. */
    method AssignAll(names: seq<string>, cols: seq<seq<Cell>>)
      requires Valid() && |names| == |cols|
      requires forall k :: 0 <= k < |cols| ==> |cols[k]| == rows
      requires forall k, m :: 0 <= k < |names| && 0 <= m < |names| && names[k] == names[m] ==> cols[k] == cols[m]
      modifies this
      ensures Valid() && rows == old(rows) && columns == Assigned(old(columns), names)
      ensures forall c :: c in old(cells) && c !in names ==> c in cells && cells[c] == old(cells)[c]
      ensures forall k :: 0 <= k < |names| ==> names[k] in cells && cells[names[k]] == cols[k]
    {
      ghost var cells0, columns0 := cells, columns;
      var i := 0;
      while i < |names|
        invariant 0 <= i <= |names|
        invariant Valid() && rows == old(rows)
        invariant columns == Assigned(columns0, names[..i])
        invariant forall c :: c in cells0 && c !in names[..i] ==> c in cells && cells[c] == cells0[c]
        invariant forall k :: 0 <= k < i ==> names[k] in cells && cells[names[k]] == cols[k]
      {
        ghost var before := cells;
        AssignedStep(columns0, names, i);
        SetColumn(names[i], cols[i]);
        forall k | 0 <= k <= i
          ensures names[k] in cells && cells[names[k]] == cols[k]
        {
          if names[k] == names[i] {
            assert cols[k] == cols[i];
          } else {
            assert cells[names[k]] == before[names[k]];
          }
        }
        i := i + 1;
      }
      assert names[..i] == names;
    }

    /** The first name that is not a column, if any. */
    method FirstMissing(names: seq<string>) returns (m: Option<string>)
      ensures m.None? <==> forall k :: 0 <= k < |names| ==> names[k] in columns
      ensures m.Some? ==> m.value in names && m.value !in columns
    {
      var k := 0;
      while k < |names|
        invariant 0 <= k <= |names|
        invariant forall j :: 0 <= j < k ==> names[j] in columns
      {
        if names[k] !in columns {
          return Some(names[k]);
        }
        k := k + 1;
      }
      return None;
    }

    /**
     * `with_lagged_columns(..., resample=False)` with the call corrected to leave out
     * `date_col`: the single lagged column of `_with_lagged_column_no_resample`.
     */
    method WithLaggedColumns(columnToLag: string, idColumn: string, lags: int, prefix: string)
      returns (r: Result<Frame>)
      requires Valid()
      ensures r.Ok? <==> idColumn in columns && columnToLag in columns
      ensures r.Ok? ==>
                fresh(r.value) && r.value.Valid() && LagName(prefix, lags, columnToLag) in r.value.cells &&
                r.value.cells[LagName(prefix, lags, columnToLag)] ==
                  ShiftColumn(RowKeys(cells, [idColumn], rows), cells[columnToLag], lags)
      ensures r.Ok? ==>
                r.value.rows == rows && r.value.columns == Assigned(columns, [LagName(prefix, lags, columnToLag)]) &&
                forall c :: c in cells && c != LagName(prefix, lags, columnToLag) ==>
                  c in r.value.cells && r.value.cells[c] == cells[c]
    {
      NoResampleCallBinds();
      r := WithLaggedColumnNoResample([columnToLag], [idColumn], lags, prefix);
      assert [idColumn][0] == idColumn && [columnToLag][0] == columnToLag;
      assert LagNames(prefix, lags, [columnToLag]) == [LagName(prefix, lags, columnToLag)];
      assert Distinct([columnToLag]);
    }
  }

  /** The two temporary column names. */
  const TimesWeight: string := "_data_times_weight"
  const WeightNotNull: string := "_weight_where_notnull"

  /** The returned series: one quotient per group key, or, with `transform=True`, one per row. */
  datatype Averages = ByGroup(means: map<Cell, Quotient>) | PerRowMeans(perRow: seq<Quotient>)

  /** Neither temporary name is a column of the frame or the grouping column. */
  predicate NoTemporaryClash(columns: seq<string>, byCol: string) {
    TimesWeight !in columns && WeightNotNull !in columns && byCol != TimesWeight && byCol != WeightNotNull
  }

  lemma MapRestored<V>(m: map<string, V>, a: string, b: string, va: V, vb: V)
    requires a !in m && b !in m
    ensures m[a := va][b := vb] - {a} - {b} == m
  {
    var m' := m[a := va][b := vb] - {a} - {b};
    assert forall k :: k in m' <==> k in m;
    assert forall k :: k in m' ==> m'[k] == m[k];
  }

  lemma TemporaryNamesDiffer()
    ensures TimesWeight != WeightNotNull
  {
    assert TimesWeight[1] != WeightNotNull[1];
  }

  lemma AppendPair<T>(s: seq<T>, a: T, b: T)
    ensures s + [a, b] == s + [a] + [b]
  {
  }

  /** Adding the two temporary columns and deleting them again gives the original column list. */
  lemma RestoredColumns(s: seq<string>)
    requires TimesWeight !in s && WeightNotNull !in s
    ensures Remove(Remove(s + [TimesWeight, WeightNotNull], TimesWeight), WeightNotNull) == s
  {
    var t, w := TimesWeight, WeightNotNull;
    AppendPair(s, t, w);
    assert t != w by {
      assert t[1] != w[1];
    }
    RemoveAppend(s + [t], [w], t);
    RemoveAppend(s, [t], t);
    RemoveAbsent(s, t);
    assert Remove([w], t) == [w] && Remove([t], t) == [];
    assert Remove(s + [t] + [w], t) == s + [w];
    RemoveAppend(s, [w], w);
    RemoveAbsent(s, w);
    assert Remove([w], w) == [];
    assert s + [] == s;
  }

  lemma {:induction false} RemoveAbsent(s: seq<string>, x: string)
    requires x !in s
    ensures Remove(s, x) == s
  {
    if s != [] {
      RemoveAbsent(s[1..], x);
    }
  }

  /** Distinct lagged columns get distinct names. */
  lemma LagNameInjective(prefix: string, lags: int, a: string, b: string)
    requires LagName(prefix, lags, a) == LagName(prefix, lags, b)
    ensures a == b
  {
    var p := prefix + IntString(lags) + "_";
    assert LagName(prefix, lags, a) == p + a && LagName(prefix, lags, b) == p + b;
    assert (p + a)[|p|..] == a && (p + b)[|p|..] == b;
  }
}
