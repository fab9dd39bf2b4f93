/** The scalar KPIs of the dashboard: total, mean, latest reading, previous
    reading and their difference (streamlit_kpi_dashboard.py, lines 84-89).

    The rows are ordered by time with pandas' default `sort_values`, which is
    not stable: rows with equal time may come out in any order. The model does
    not fix that order; `Compute` takes the ordering the sort produced as a
    parameter, constrained only by `TimeOrdered`. */
module Kpi {
  import opened Rows
  import opened Multisets

  datatype Kpis = Kpis(total: real, mean: real, latest: real, previous: real, delta: real)

  /** `byTime` is a reordering of `rows` by non-decreasing time. */
  ghost predicate TimeOrdered<K>(rows: seq<Row<K>>, byTime: seq<Row<K>>)
  {
    && multiset(byTime) == multiset(rows)
    && TimeSorted(byTime)
  }

  ghost predicate TimeSorted<K>(s: seq<Row<K>>)
  {
    forall i, j :: 0 <= i < j < |s| ==> s[i].time <= s[j].time
  }

  /** Row `i` carries the greatest time of the table. */
  ghost predicate IsLatest<K>(rows: seq<Row<K>>, i: int)
  {
    && 0 <= i < |rows|
    && forall m :: 0 <= m < |rows| ==> rows[m].time <= rows[i].time
  }

  /** Row `i` is a latest row and row `j`, another row, has the greatest time
      among all rows but `i`. */
  ghost predicate IsRunnerUp<K>(rows: seq<Row<K>>, i: int, j: int)
  {
    && IsLatest(rows, i)
    && 0 <= j < |rows| && j != i
    && forall m :: 0 <= m < |rows| && m != i ==> rows[m].time <= rows[j].time
  }

  /** Arithmetic mean of the metric column (pandas `Series.mean()`), over the reals. */
  function Mean<K>(rows: seq<Row<K>>): (m: real)
    requires |rows| >= 1
    ensures m * (|rows| as real) == Total(rows)
  {
    Total(rows) / (|rows| as real)
  }

  /** Inserts `x` into a time-sorted sequence. */
  function InsertByTime<K>(x: Row<K>, s: seq<Row<K>>): (r: seq<Row<K>>)
    requires TimeSorted(s)
    ensures multiset(r) == multiset(s) + multiset{x}
    ensures TimeSorted(r)
    ensures r[0] == x || (|s| > 0 && r[0] == s[0])
  {
    if |s| == 0 then [x]
    else if x.time <= s[0].time then [x] + s
    else
      var rest := InsertByTime(x, s[1..]);
      InsertAfterEarlierHead(x, s, rest);
      [s[0]] + rest
  }

  /** Inserting `x` behind the head of `s`, which is earlier than `x`, keeps
      the insertion's contract. */
  lemma InsertAfterEarlierHead<K>(x: Row<K>, s: seq<Row<K>>, rest: seq<Row<K>>)
    requires |s| > 0 && TimeSorted(s) && x.time > s[0].time
    requires multiset(rest) == multiset(s[1..]) + multiset{x} && TimeSorted(rest)
    requires rest[0] == x || (|s| > 1 && rest[0] == s[1])
    ensures multiset([s[0]] + rest) == multiset(s) + multiset{x}
    ensures TimeSorted([s[0]] + rest)
  {
    assert s[0].time <= rest[0].time;
    ConsTimeSorted(s[0], rest);
    ConsHead(s, rest, x);
  }

  /** A row no later than the head of a time-sorted sequence can go in front. */
  lemma ConsTimeSorted<K>(a: Row<K>, t: seq<Row<K>>)
    requires TimeSorted(t) && (|t| > 0 ==> a.time <= t[0].time)
    ensures TimeSorted([a] + t)
  {
  }

  /** One of the orders `sort_values` on the time column may return. */
  function SortByTime<K>(rows: seq<Row<K>>): (r: seq<Row<K>>)
    ensures TimeOrdered(rows, r)
  {
    if |rows| == 0 then []
    else
      assert rows == rows[..|rows|-1] + [rows[|rows|-1]];
      InsertByTime(rows[|rows|-1], SortByTime(rows[..|rows|-1]))
  }

  /** The last row of any time ordering is a latest row of the table. */
  lemma LatestRow<K>(rows: seq<Row<K>>, byTime: seq<Row<K>>) returns (i: nat)
    requires |rows| >= 1 && TimeOrdered(rows, byTime)
    ensures |byTime| == |rows|
    ensures IsLatest(rows, i) && rows[i] == byTime[|byTime|-1]
  {
    assert |byTime| == |multiset(byTime)| == |multiset(rows)| == |rows|;
    var n := |byTime|;
    i := PositionOf(rows, byTime[n-1]);
    forall m | 0 <= m < |rows|
      ensures rows[m].time <= rows[i].time
    {
      var p := PositionOf(byTime, rows[m]);
    }
  }

  /** Removing the latest row from the table leaves the multiset of all but
      the last row of the time ordering. */
  lemma RestOfTimeOrder<K>(rows: seq<Row<K>>, byTime: seq<Row<K>>, i: nat)
    requires multiset(byTime) == multiset(rows) && |byTime| == |rows|
    requires i < |rows| && rows[i] == byTime[|byTime|-1]
    ensures multiset(rows[..i] + rows[i+1..]) == multiset(byTime[..|byTime|-1])
  {
    DropAt(rows, i);
    DropLast(byTime);
  }

  /** Position `m` of `s` sits one place earlier once position `i < m` is removed. */
  lemma Reindex<T>(s: seq<T>, i: nat, m: nat)
    requires i < |s| && m < |s| && m != i
    ensures (if m < i then m else m - 1) < |s[..i] + s[i+1..]|
    ensures (s[..i] + s[i+1..])[if m < i then m else m - 1] == s[m]
  {
  }

  /** In a time-sorted sequence no element is later than the last one. */
  lemma NotLaterThanLast<K>(s: seq<Row<K>>, x: Row<K>)
    requires TimeSorted(s) && x in multiset(s)
    ensures x.time <= s[|s|-1].time
  {
    var p := PositionOf(s, x);
  }

  /** The second-to-last row of a time ordering is, among the rows other than
      the latest one, a row of greatest time. */
  lemma RunnerUpRow<K>(rows: seq<Row<K>>, byTime: seq<Row<K>>, i: nat) returns (j: nat)
    requires |rows| >= 2 && TimeOrdered(rows, byTime) && |byTime| == |rows|
    requires IsLatest(rows, i) && rows[i] == byTime[|byTime|-1]
    ensures IsRunnerUp(rows, i, j) && rows[j] == byTime[|byTime|-2]
  {
    var n := |byTime|;
    var restRows := rows[..i] + rows[i+1..];
    var restSorted := byTime[..n-1];
    RestOfTimeOrder(rows, byTime, i);
    assert TimeSorted(restSorted);
    var q := PositionOf(restRows, restSorted[n-2]);
    j := if q < i then q else q + 1;
    Reindex(rows, i, j);
    forall m | 0 <= m < |rows| && m != i
      ensures rows[m].time <= rows[j].time
    {
      Reindex(rows, i, m);
      NotLaterThanLast(restSorted, rows[m]);
    }
  }

  /** The last two rows of a time ordering are a latest row and its runner-up. */
  lemma LastTwoRows<K>(rows: seq<Row<K>>, byTime: seq<Row<K>>)
    requires |rows| >= 1 && TimeOrdered(rows, byTime)
    ensures |byTime| == |rows|
    ensures exists i :: IsLatest(rows, i) && rows[i] == byTime[|byTime|-1]
    ensures |rows| >= 2 ==>
      exists i, j :: IsRunnerUp(rows, i, j) && rows[i] == byTime[|byTime|-1]
                                            && rows[j] == byTime[|byTime|-2]
  {
    var i := LatestRow(rows, byTime);
    if |rows| >= 2 {
      var j := RunnerUpRow(rows, byTime, i);
    }
  }

  /** The KPIs of lines 84-89, for a non-empty table and the time ordering the
      sort produced. An empty table has no numeric column, so line 84 fails
      before the KPIs are reached (and `iloc[-1]` would fail too); it is excluded
      here and handled as an error by the dashboard. */
  function Compute<K>(rows: seq<Row<K>>, byTime: seq<Row<K>>): (k: Kpis)
    requires |rows| >= 1 && TimeOrdered(rows, byTime)
    ensures k.total == Total(rows)
    ensures k.mean * (|rows| as real) == k.total
    ensures exists i :: IsLatest(rows, i) && k.latest == rows[i].value
    ensures |rows| >= 2 ==>
      exists i, j :: IsRunnerUp(rows, i, j) && k.latest == rows[i].value && k.previous == rows[j].value
    ensures |rows| == 1 ==> k.previous == k.latest && k.delta == 0.0
    ensures k.delta == k.latest - k.previous
  {
    LastTwoValues(rows, byTime);
    var n := |byTime|;
    var latest := byTime[n-1].value;
    var previous := if n > 1 then byTime[n-2].value else latest;
    Kpis(Total(rows), Mean(rows), latest, previous, latest - previous)
  }

  /** The metric values of the last two rows of a time ordering are those of
      a latest row and of its runner-up. */
  lemma LastTwoValues<K>(rows: seq<Row<K>>, byTime: seq<Row<K>>)
    requires |rows| >= 1 && TimeOrdered(rows, byTime)
    ensures |byTime| == |rows|
    ensures exists i :: IsLatest(rows, i) && rows[i].value == byTime[|byTime|-1].value
    ensures |rows| >= 2 ==>
      exists i, j :: IsRunnerUp(rows, i, j) && rows[i].value == byTime[|byTime|-1].value
                                            && rows[j].value == byTime[|byTime|-2].value
  {
    LastTwoRows(rows, byTime);
  }

  /** Sorting by time moves rows but keeps the total: summing the sorted
      table gives the KPI total of `Compute`. */
  lemma SortKeepsTotal<K>(rows: seq<Row<K>>, byTime: seq<Row<K>>)
    requires TimeOrdered(rows, byTime)
    ensures Total(byTime) == Total(rows)
  {
    TotalPermutation(rows, byTime);
  }

  /** No two rows share a time value. */
  ghost predicate DistinctTimes<K>(rows: seq<Row<K>>)
  {
    forall i, j :: 0 <= i < j < |rows| ==> rows[i].time != rows[j].time
  }

  ghost predicate StrictlyTimeSorted<K>(s: seq<Row<K>>)
  {
    forall i, j :: 0 <= i < j < |s| ==> s[i].time < s[j].time
  }

  lemma TieFreeOrderIsStrict<K>(rows: seq<Row<K>>, byTime: seq<Row<K>>)
    requires TimeOrdered(rows, byTime) && DistinctTimes(rows)
    ensures StrictlyTimeSorted(byTime)
  {
    forall i, j | 0 <= i < j < |byTime|
      ensures byTime[i].time < byTime[j].time
    {
      var p := PositionOf(rows, byTime[i]);
      if byTime[i] == byTime[j] {
        // a repeated row would repeat its time in `rows`
        TwoPositions(byTime, i, j);
        OtherPosition(rows, p);
        assert false;
      } else {
        var q := PositionOf(rows, byTime[j]);
        assert rows[p].time != rows[q].time by {
          if p < q {
            assert rows[p].time != rows[q].time;
          } else {
            assert rows[q].time != rows[p].time;
          }
        }
      }
    }
  }

  /** Every other element of a strictly time-sorted sequence is earlier than the last. */
  lemma EarlierThanLast<K>(s: seq<Row<K>>, x: Row<K>)
    requires StrictlyTimeSorted(s) && x in multiset(s) && x != s[|s|-1]
    ensures x.time < s[|s|-1].time
  {
    var p := PositionOf(s, x);
  }

  /** Two strictly time-sorted orderings of the same rows end with the same row. */
  lemma SameLast<K>(s1: seq<Row<K>>, s2: seq<Row<K>>)
    requires multiset(s1) == multiset(s2) && |s1| > 0
    requires StrictlyTimeSorted(s1) && StrictlyTimeSorted(s2)
    ensures |s2| > 0 && s1[|s1|-1] == s2[|s2|-1]
  {
    var a := s1[|s1|-1];
    assert a in multiset(s2);
    var b := s2[|s2|-1];
    if a != b {
      EarlierThanLast(s2, a);
      EarlierThanLast(s1, b);
      assert false;
    }
  }

  lemma {:induction false} StrictOrderIsUnique<K>(s1: seq<Row<K>>, s2: seq<Row<K>>)
    requires multiset(s1) == multiset(s2)
    requires StrictlyTimeSorted(s1) && StrictlyTimeSorted(s2)
    ensures s1 == s2
    decreases |s1|
  {
    if |s1| == 0 {
      assert |s2| == |multiset(s2)| == 0;
    } else {
      SameLast(s1, s2);
      var n, m := |s1|, |s2|;
      DropLast(s1);
      DropLast(s2);
      StrictOrderIsUnique(s1[..n-1], s2[..m-1]);
      assert s1 == s1[..n-1] + [s1[n-1]];
      assert s2 == s2[..m-1] + [s2[m-1]];
    }
  }

  /** When no two rows share a time, the unstable sort cannot change the
      result: every admissible time ordering yields the same KPIs. */
  lemma KpisIndependentOfTieOrder<K>(rows: seq<Row<K>>, s1: seq<Row<K>>, s2: seq<Row<K>>)
    requires |rows| >= 1 && DistinctTimes(rows)
    requires TimeOrdered(rows, s1) && TimeOrdered(rows, s2)
    ensures Compute(rows, s1) == Compute(rows, s2)
  {
    TieFreeOrderIsStrict(rows, s1);
    TieFreeOrderIsStrict(rows, s2);
    StrictOrderIsUnique(s1, s2);
  }

  /** Whatever the tie order, the latest reading comes from a row carrying the
      table's greatest time, so its time is the same in every ordering. */
  lemma LatestTimeIndependentOfTieOrder<K>(rows: seq<Row<K>>, s1: seq<Row<K>>, s2: seq<Row<K>>)
    requires |rows| >= 1
    requires TimeOrdered(rows, s1) && TimeOrdered(rows, s2)
    ensures |s1| == |s2| == |rows|
    ensures s1[|s1|-1].time == s2[|s2|-1].time
  {
    var i1 := LatestRow(rows, s1);
    var i2 := LatestRow(rows, s2);
  }
}
