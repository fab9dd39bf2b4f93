/** The column pickers of the sidebar (streamlit_kpi_dashboard.py, lines
    58-65): the time column may be any column, the metric column any numeric
    column, and the grouping dimensions any column other than those two. */
module Picker {
  import opened Multisets

  /** A column of the loaded table: its name and whether pandas infers a
      numeric dtype for its own values. */
  datatype Column = Column(name: string, numeric: bool)

  /** The user's choices: time column, metric column and grouping columns. */
  datatype Selection = Selection(dateCol: string, valueCol: string, groupCols: seq<string>)

  /** `df.columns.tolist()` */
  function Names(schema: seq<Column>): (names: seq<string>)
    ensures |names| == |schema|
    ensures forall i :: 0 <= i < |schema| ==> names[i] == schema[i].name
  {
    seq(|schema|, i requires 0 <= i < |schema| => schema[i].name)
  }

  /** `a` is `b` with some elements left out and the rest kept in order. */
  ghost predicate IsSubsequence<T>(a: seq<T>, b: seq<T>)
    decreases |b|
  {
    if |a| == 0 then true
    else if |b| == 0 then false
    else (a[0] == b[0] && IsSubsequence(a[1..], b[1..])) || IsSubsequence(a, b[1..])
  }

  /** `is_numeric_dtype(df[n])` (line 60): `n` names exactly one column and
      that column is numeric. A name shared by several columns selects a
      DataFrame, which is never a numeric dtype. */
  ghost predicate NumericDtype(schema: seq<Column>, n: string)
  {
    && multiset(Names(schema))[n] == 1
    && exists j :: 0 <= j < |schema| && schema[j].name == n && schema[j].numeric
  }

  /** The options of "Coluna de valor (KPI)" (line 60): the names passing
      `is_numeric_dtype`, in table order, each offered once. */
  function NumericOptions(schema: seq<Column>): (r: seq<string>)
    ensures IsSubsequence(r, Names(schema))
    ensures forall n :: multiset(r)[n] == if NumericDtype(schema, n) then 1 else 0
  {
    assert Names(schema)[0..] == Names(schema);
    NumericFrom(schema, 0)
  }

  /** `n` passes `is_numeric_dtype` and its column sits at position `i` or later. */
  ghost predicate NumericFromHere(schema: seq<Column>, i: nat, n: string)
  {
    && multiset(Names(schema))[n] == 1
    && exists j :: i <= j < |schema| && schema[j].name == n && schema[j].numeric
  }

  /** The numeric options among the columns from position `i` on. */
  function NumericFrom(schema: seq<Column>, i: nat): (r: seq<string>)
    requires i <= |schema|
    ensures IsSubsequence(r, Names(schema)[i..])
    ensures forall n :: multiset(r)[n] == if NumericFromHere(schema, i, n) then 1 else 0
    decreases |schema| - i
  {
    if i == |schema| then []
    else
      var names := Names(schema);
      var c := schema[i];
      var rest := NumericFrom(schema, i + 1);
      assert names[i..][1..] == names[i+1..];
      if c.numeric && multiset(names)[c.name] == 1 then
        NameOnce(schema, i);
        [c.name] + rest
      else rest
  }

  /** A name counted once in the table belongs to no other column. */
  lemma NameOnce(schema: seq<Column>, i: nat)
    requires i < |schema| && multiset(Names(schema))[schema[i].name] == 1
    ensures forall j :: 0 <= j < |schema| && j != i ==> schema[j].name != schema[i].name
  {
    forall j | 0 <= j < |schema| && j != i
      ensures schema[j].name != schema[i].name
    {
      if schema[j].name == schema[i].name {
        TwoPositions(Names(schema), i, j);
      }
    }
  }

  /** The options of "Dimensões para agrupar" (line 64): every column name
      except the chosen time and metric columns, in table order, each kept as
      often as it occurs. */
  function GroupOptions(names: seq<string>, dateCol: string, valueCol: string): (r: seq<string>)
    ensures IsSubsequence(r, names)
    ensures forall n :: multiset(r)[n] == if n == dateCol || n == valueCol then 0 else multiset(names)[n]
  {
    if |names| == 0 then []
    else
      assert names == [names[0]] + names[1..];
      var rest := GroupOptions(names[1..], dateCol, valueCol);
      if names[0] != dateCol && names[0] != valueCol then [names[0]] + rest else rest
  }

  /** The grouping options never offer the time or the metric column, and
      offer every other column. */
  lemma GroupOptionsExcludeChosen(names: seq<string>, dateCol: string, valueCol: string)
    ensures dateCol !in GroupOptions(names, dateCol, valueCol)
    ensures valueCol !in GroupOptions(names, dateCol, valueCol)
    ensures forall n :: n in GroupOptions(names, dateCol, valueCol) <==>
      n in names && n != dateCol && n != valueCol
  {
    var r := GroupOptions(names, dateCol, valueCol);
    forall n ensures n in r <==> n in names && n != dateCol && n != valueCol {
      assert n in r <==> multiset(r)[n] > 0;
      assert n in names <==> multiset(names)[n] > 0;
    }
  }

  /** A selection made from the offered options. */
  ghost predicate Offered(schema: seq<Column>, sel: Selection)
  {
    && sel.dateCol in Names(schema)
    && sel.valueCol in NumericOptions(schema)
    && forall g :: g in sel.groupCols ==> g in GroupOptions(Names(schema), sel.dateCol, sel.valueCol)
  }

  /** Any selection the sidebar allows has a numeric metric column and
      grouping columns distinct from the time and metric columns. */
  lemma OfferedSelectionIsWellFormed(schema: seq<Column>, sel: Selection)
    requires Offered(schema, sel)
    ensures exists c :: c in schema && c.numeric && c.name == sel.valueCol
    ensures multiset(Names(schema))[sel.valueCol] == 1
    ensures forall g :: g in sel.groupCols ==> g != sel.dateCol && g != sel.valueCol && g in Names(schema)
  {
    assert multiset(NumericOptions(schema))[sel.valueCol] > 0;
    var j :| 0 <= j < |schema| && schema[j].name == sel.valueCol && schema[j].numeric;
    assert schema[j] in schema;
    GroupOptionsExcludeChosen(Names(schema), sel.dateCol, sel.valueCol);
  }
}
