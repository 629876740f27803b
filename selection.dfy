/**
 * The row selection behind the dashboard (pokemon_dv/app.py): the options of
 * the type dropdown, the rows of the selected type, and the best of them by
 * the selected criterion.
 */
module Selection {
  import opened Wrappers
  import opened Lex
  import opened Dataset

  /** Some row of the table has type `t`. */
  predicate HasType(df: seq<Record>, t: string) {
    exists i :: 0 <= i < |df| && df[i].type1 == t
  }

  lemma HasTypeOfPrefix(df: seq<Record>, t: string)
    requires |df| > 0
    ensures HasType(df, t) <==> HasType(df[..|df| - 1], t) || df[|df| - 1].type1 == t
  {
    var prefix := df[..|df| - 1];
    if HasType(df, t) {
      var i :| 0 <= i < |df| && df[i].type1 == t;
      if i < |prefix| { assert prefix[i].type1 == t; }
    }
    if HasType(prefix, t) {
      var i :| 0 <= i < |prefix| && prefix[i].type1 == t;
      assert df[i].type1 == t;
    }
  }

  /**
   * The type dropdown's values: the distinct `type_1` values of the table,
   * sorted ascending.
   */
  function TypeOptions(df: seq<Record>): (r: seq<string>)
    ensures StrictlySorted(r)
    ensures forall t :: t in r <==> HasType(df, t)
    decreases |df|
  {
    if |df| == 0 then []
    else
      var r := Insert(TypeOptions(df[..|df| - 1]), df[|df| - 1].type1);
      assert forall t :: t in r <==> HasType(df, t) by {
        forall t ensures t in r <==> HasType(df, t) {
          HasTypeOfPrefix(df, t);
        }
      }
      r
  }

  /**
   * The options are the one strictly ascending list of the table's types:
   * any strictly ascending list holding exactly those types is the same list.
   */
  lemma TypeOptionsCanonical(df: seq<Record>, s: seq<string>)
    requires StrictlySorted(s)
    requires forall t :: t in s <==> HasType(df, t)
    ensures TypeOptions(df) == s
  {
    StrictlySortedUnique(TypeOptions(df), s);
  }

  /** No type appears twice among the options. */
  lemma TypeOptionsDistinct(df: seq<Record>)
    ensures forall i, j :: 0 <= i < |TypeOptions(df)| && 0 <= j < |TypeOptions(df)| && i != j ==>
      TypeOptions(df)[i] != TypeOptions(df)[j]
  {
    StrictlySortedDistinct(TypeOptions(df));
  }

  /** A row of a table together with its index label. */
  datatype Row = Row(indexLabel: nat, record: Record)

  /** Some row carries label `l`. */
  predicate HasLabel(f: seq<Row>, l: nat) {
    exists k :: 0 <= k < |f| && f[k].indexLabel == l
  }

  /** Labels strictly increase along the rows. */
  predicate LabelsAscending(f: seq<Row>) {
    forall k, m :: 0 <= k < m < |f| ==> f[k].indexLabel < f[m].indexLabel
  }

  /**
   * `df[df["type_1"] == type1]`: the rows of the selected type, in table
   * order, each keeping the label it has in `df` (its position, since `df`
   * carries the default index).
   */
  function Filter(df: seq<Record>, type1: string): (f: seq<Row>)
    ensures |f| <= |df|
    decreases |df|
  {
    if |df| == 0 then []
    else
      var n := |df| - 1;
      Filter(df[..n], type1) + (if df[n].type1 == type1 then [Row(n, df[n])] else [])
  }

  /** Every selected row has the selected type and is the row of `df` its label names. */
  lemma {:induction false} FilterSound(df: seq<Record>, type1: string)
    ensures forall k :: 0 <= k < |Filter(df, type1)| ==>
      var row := Filter(df, type1)[k];
      row.indexLabel < |df| && df[row.indexLabel] == row.record && row.record.type1 == type1
    decreases |df|
  {
    if |df| > 0 {
      var n := |df| - 1;
      var before := Filter(df[..n], type1);
      FilterSound(df[..n], type1);
      var f := Filter(df, type1);
      forall k | 0 <= k < |f|
        ensures f[k].indexLabel < |df| && df[f[k].indexLabel] == f[k].record && f[k].record.type1 == type1
      {
        if k < |before| {
          assert f[k] == before[k];
          assert df[..n][before[k].indexLabel] == df[before[k].indexLabel];
        }
      }
    }
  }

  /** The selected rows keep the order of `df`: their labels ascend. */
  lemma {:induction false} FilterAscending(df: seq<Record>, type1: string)
    ensures LabelsAscending(Filter(df, type1))
    decreases |df|
  {
    if |df| > 0 {
      var n := |df| - 1;
      var before := Filter(df[..n], type1);
      FilterAscending(df[..n], type1);
      FilterSound(df[..n], type1);
      var f := Filter(df, type1);
      forall k, m | 0 <= k < m < |f| ensures f[k].indexLabel < f[m].indexLabel {
        assert f[k] == before[k];
        if m < |before| {
          assert f[m] == before[m];
        } else {
          assert f[m].indexLabel == n;
        }
      }
    }
  }

  /** Every row of `df` of the selected type is selected. */
  lemma {:induction false} FilterComplete(df: seq<Record>, type1: string)
    ensures forall i :: 0 <= i < |df| && df[i].type1 == type1 ==> HasLabel(Filter(df, type1), i)
    decreases |df|
  {
    if |df| > 0 {
      var n := |df| - 1;
      var before := Filter(df[..n], type1);
      FilterComplete(df[..n], type1);
      var f := Filter(df, type1);
      forall i | 0 <= i < |df| && df[i].type1 == type1
        ensures HasLabel(f, i)
      {
        if i < n {
          assert df[..n][i] == df[i];
          var k :| 0 <= k < |before| && before[k].indexLabel == i;
          assert f[k] == before[k];
        } else {
          assert f[|before|].indexLabel == i;
        }
      }
    }
  }

  /** No row is selected exactly when no row has the selected type. */
  lemma FilterEmptyIff(df: seq<Record>, type1: string)
    ensures |Filter(df, type1)| == 0 <==> !HasType(df, type1)
  {
    FilterSound(df, type1);
    FilterComplete(df, type1);
    var f := Filter(df, type1);
    if |f| > 0 {
      assert df[f[0].indexLabel].type1 == type1;
    }
  }

  /** A type taken from the options of the same table always selects some row. */
  lemma OptionSelectsRows(df: seq<Record>, type1: string)
    requires type1 in TypeOptions(df)
    ensures |Filter(df, type1)| > 0
  {
    FilterEmptyIff(df, type1);
  }

  /**
   * The position of the first row attaining the largest criterion value,
   * the tie-break of `idxmax`.
   */
  function ArgMax(f: seq<Row>, c: Criterion): (k: nat)
    requires |f| > 0
    ensures k < |f|
    ensures forall j :: 0 <= j < |f| ==> Value(f[j].record, c) <= Value(f[k].record, c)
    ensures forall j :: 0 <= j < k ==> Value(f[j].record, c) < Value(f[k].record, c)
    decreases |f|
  {
    if |f| == 1 then 0
    else
      var n := |f| - 1;
      var k := ArgMax(f[..n], c);
      assert f[..n][k] == f[k];
      assert forall j :: 0 <= j < n ==> f[..n][j] == f[j];
      if Value(f[k].record, c) < Value(f[n].record, c) then n else k
  }

  /** Why a selection has no best row. */
  datatype SelectionError = EmptySelection

  /**
   * `filtered_df[criteria].idxmax()`: the label of the first row with the
   * largest criterion value, or the error `idxmax` raises on no rows.
   */
  function IdxMax(f: seq<Row>, c: Criterion): (r: Result<nat, SelectionError>)
    ensures r.Failure? <==> |f| == 0
    ensures r.Success? ==> exists k :: (0 <= k < |f| && f[k].indexLabel == r.value &&
      (forall j :: 0 <= j < |f| ==> Value(f[j].record, c) <= Value(f[k].record, c)) &&
      (forall j :: 0 <= j < k ==> Value(f[j].record, c) < Value(f[k].record, c)))
  {
    if |f| == 0 then Failure(EmptySelection)
    else
      var k := ArgMax(f, c);
      Success(f[k].indexLabel)
  }

  /**
   * `frame.loc[label]`: the row carrying `label`. Labels are unique in a
   * filtered frame (LabelsAscending), so the first such row is the only one;
   * a frame with a repeated label is not modelled.
   */
  function Loc(f: seq<Row>, l: nat): (r: Option<Row>)
    ensures r.Some? ==> exists k :: (0 <= k < |f| && f[k] == r.value && r.value.indexLabel == l &&
      forall j :: 0 <= j < k ==> f[j].indexLabel != l)
    ensures r.None? <==> forall k :: 0 <= k < |f| ==> f[k].indexLabel != l
    decreases |f|
  {
    if |f| == 0 then None
    else if f[0].indexLabel == l then Some(f[0])
    else
      var r := Loc(f[1..], l);
      assert forall k :: 1 <= k < |f| ==> f[1..][k - 1] == f[k];
      if r.Some? then
        var k :| (0 <= k < |f[1..]| && f[1..][k] == r.value && r.value.indexLabel == l &&
          forall j :: 0 <= j < k ==> f[1..][j].indexLabel != l);
        assert f[k + 1] == r.value;
        assert forall j :: 0 <= j < k + 1 ==> f[j].indexLabel != l;
        r
      else r
  }

  /** With ascending labels a label names exactly one row. */
  lemma {:induction false} LocFindsRow(f: seq<Row>, k: nat)
    requires LabelsAscending(f)
    requires k < |f|
    ensures Loc(f, f[k].indexLabel) == Some(f[k])
    decreases |f|
  {
    if k > 0 {
      assert f[0].indexLabel < f[k].indexLabel;
      assert LabelsAscending(f[1..]) by {
        forall a, b | 0 <= a < b < |f[1..]| ensures f[1..][a].indexLabel < f[1..][b].indexLabel {
          assert f[1..][a] == f[a + 1] && f[1..][b] == f[b + 1];
        }
      }
      assert f[1..][k - 1] == f[k];
      LocFindsRow(f[1..], k - 1);
    }
  }

  /**
   * `best_pokemon = filtered_df.loc[filtered_df[criteria].idxmax()].name`.
   * `.name` of a row is its index label, not its `name` column, so the
   * result is a label.
   */
  function BestPokemon(f: seq<Row>, c: Criterion): (r: Result<nat, SelectionError>)
    ensures r == IdxMax(f, c)
  {
    match IdxMax(f, c)
    case Failure(e) => Failure(e)
    case Success(l) =>
      match Loc(f, l)
      case Some(row) => Success(row.indexLabel)
      case None => assert false; Failure(EmptySelection)
  }

  /** On the selected rows of a table, the best row is missing exactly when no row has the type. */
  lemma BestFailsIff(df: seq<Record>, type1: string, c: Criterion)
    ensures BestPokemon(Filter(df, type1), c).Failure? <==> !HasType(df, type1)
  {
    FilterEmptyIff(df, type1);
  }

  /**
   * On the selected rows of a table, the best row is the first row of the
   * table, in table order, that has the selected type and the largest
   * criterion value among the rows of that type.
   */
  lemma BestOfSelection(df: seq<Record>, type1: string, c: Criterion)
    requires HasType(df, type1)
    ensures BestPokemon(Filter(df, type1), c).Success?
    ensures IsFirstBest(df, type1, c, BestPokemon(Filter(df, type1), c).value)
  {
    var f := Filter(df, type1);
    FilterEmptyIff(df, type1);
    var l := BestPokemon(f, c).value;
    FilterSound(df, type1);
    FilterAscending(df, type1);
    FilterComplete(df, type1);
    var k := ArgMax(f, c);
    assert l == f[k].indexLabel;
    ArgMaxIsFirstBest(df, type1, c, f, k);
  }

  /** The step of BestOfSelection from positions among the selected rows to labels of `df`. */
  lemma ArgMaxIsFirstBest(df: seq<Record>, type1: string, c: Criterion, f: seq<Row>, k: nat)
    requires forall m :: 0 <= m < |f| ==>
      f[m].indexLabel < |df| && df[f[m].indexLabel] == f[m].record && f[m].record.type1 == type1
    requires LabelsAscending(f)
    requires forall i :: 0 <= i < |df| && df[i].type1 == type1 ==> HasLabel(f, i)
    requires k < |f|
    requires forall j :: 0 <= j < |f| ==> Value(f[j].record, c) <= Value(f[k].record, c)
    requires forall j :: 0 <= j < k ==> Value(f[j].record, c) < Value(f[k].record, c)
    ensures IsFirstBest(df, type1, c, f[k].indexLabel)
  {
    var l := f[k].indexLabel;
    forall i | 0 <= i < |df| && df[i].type1 == type1
      ensures Value(df[i], c) <= Value(df[l], c)
      ensures i < l ==> Value(df[i], c) < Value(df[l], c)
    {
      var m :| 0 <= m < |f| && f[m].indexLabel == i;
      assert df[i] == f[m].record;
      if i < l {
        assert m < k;
      }
    }
  }

  /**
   * Row `l` of `df` has the selected type, no row of that type has a larger
   * criterion value, and every earlier row of that type has a smaller one.
   */
  predicate IsFirstBest(df: seq<Record>, type1: string, c: Criterion, l: nat) {
    && l < |df| && df[l].type1 == type1
    && (forall i :: 0 <= i < |df| && df[i].type1 == type1 ==> Value(df[i], c) <= Value(df[l], c))
    && (forall i :: 0 <= i < l && df[i].type1 == type1 ==> Value(df[i], c) < Value(df[l], c))
  }
}
