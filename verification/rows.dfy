/** The loaded table, seen through the dashboard's column selection: every row
    contributes its (already coerced) time key, its metric value and its group
    key, the tuple of the selected grouping columns' values. */
module Rows {
  import opened Multisets

  datatype Row<K> = Row(time: int, value: real, key: K)

  /** Sum of the metric column over `rows`, accumulated left to right. */
  function Total<K>(rows: seq<Row<K>>): real
  {
    if |rows| == 0 then 0.0 else Total(rows[..|rows|-1]) + rows[|rows|-1].value
  }

  /** Adding a row adds its value. */
  lemma TotalSnoc<K>(rows: seq<Row<K>>, x: Row<K>)
    ensures Total(rows + [x]) == Total(rows) + x.value
  {
    assert (rows + [x])[..|rows|] == rows;
  }

  /** The total of two tables one after the other is the sum of their totals. */
  lemma {:induction false} TotalAppend<K>(a: seq<Row<K>>, b: seq<Row<K>>)
    ensures Total(a + b) == Total(a) + Total(b)
    decreases |b|
  {
    if |b| > 0 {
      assert (a + b)[..|a + b| - 1] == a + b[..|b|-1];
      TotalAppend(a, b[..|b|-1]);
    } else {
      assert a + b == a;
    }
  }

  /** The total of a row followed by more rows. */
  lemma TotalCons<K>(x: Row<K>, back: seq<Row<K>>)
    ensures Total([x] + back) == x.value + Total(back)
  {
    TotalAppend([x], back);
    TotalSnoc([], x);
    assert [] + [x] == [x];
  }

  /** The total splits around position `i`. */
  lemma TotalAround<K>(b: seq<Row<K>>, i: nat)
    requires i < |b|
    ensures Total(b) == Total(b[..i]) + b[i].value + Total(b[i+1..])
  {
    Rejoin(b, i);
    TotalAppend(b[..i], b[i..]);
    TotalCons(b[i], b[i+1..]);
  }

  /** Cutting `b` at `i`, and the suffix at its head, gives `b` back. */
  lemma Rejoin<T>(b: seq<T>, i: nat)
    requires i < |b|
    ensures b[..i] + b[i..] == b
    ensures [b[i]] + b[i+1..] == b[i..]
  {
  }

  /** Taking out the row at position `i` takes out its value. */
  lemma TotalDropAt<K>(b: seq<Row<K>>, i: nat)
    requires i < |b|
    ensures Total(b) == Total(b[..i] + b[i+1..]) + b[i].value
  {
    TotalAround(b, i);
    TotalAppend(b[..i], b[i+1..]);
  }

  /** The total does not depend on the order of the rows. */
  lemma {:induction false} TotalPermutation<K>(a: seq<Row<K>>, b: seq<Row<K>>)
    requires multiset(a) == multiset(b)
    ensures Total(a) == Total(b)
    decreases |a|
  {
    if |a| > 0 {
      var x := a[|a|-1];
      var i := PositionOf(b, x);
      DropAt(b, i);
      DropLast(a);
      TotalPermutation(a[..|a|-1], b[..i] + b[i+1..]);
      TotalDropAt(b, i);
    } else {
      assert b == [];
    }
  }

}
