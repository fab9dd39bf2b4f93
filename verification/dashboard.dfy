/** One run of the dashboard script once a table is (or is not) loaded
    (streamlit_kpi_dashboard.py, lines 56-163, without the widgets and charts):
    the KPIs, the optional ranking and the "KPIs" sheet of the report. */
module Dashboard {
  import opened Wrappers
  import opened Rows
  import opened Picker
  import opened Kpi
  import opened Ranking
  import opened Report

  datatype View<K> =
      /** `df` is None: the "Aguardando ..." placeholder (line 163). */
    | Waiting
      /** A loaded table without rows: its columns are not numeric, so no
          metric column can be chosen and the sum at line 84 raises. */
    | EmptyTableError
    | Shown(kpis: Kpis, ranking: Option<seq<Entry<K>>>, summary: seq<SummaryRow>)

  /** The whole derivation from the loaded table and the user's selection.
      `byTime` and `ordered` are the orders the two unstable sorts produced. */
  function Render<K(==,!new)>(loaded: Option<seq<Row<K>>>, sel: Selection,
                              byTime: seq<Row<K>>, ordered: seq<Entry<K>>): (v: View<K>)
    requires loaded.Some? ==> TimeOrdered(loaded.value, byTime)
    requires loaded.Some? && |sel.groupCols| > 0 ==> RankOrdered(Grouped(loaded.value), ordered)
    ensures v.Waiting? <==> loaded.None?
    ensures v.EmptyTableError? <==> loaded.Some? && |loaded.value| == 0
    ensures v.Shown? ==> v.kpis == Compute(loaded.value, byTime)
    ensures v.Shown? ==> (v.ranking.Some? <==> |sel.groupCols| > 0)
    ensures v.Shown? && v.ranking.Some? ==> v.ranking.value == Top(loaded.value, ordered)
    ensures v.Shown? ==> ReadBack(v.summary) == Some(v.kpis)
  {
    match loaded
    case None => Waiting
    case Some(rows) =>
      if |rows| == 0 then EmptyTableError
      else
        var k := Compute(rows, byTime);
        ReadBackSummary(k);
        var ranking := if |sel.groupCols| > 0 then Some(Top(rows, ordered)) else None;
        Shown(k, ranking, Summary(k))
  }

  /** A worked example: three readings, two regions. */
  function SampleRows(): seq<Row<string>>
  {
    [Row(1, 10.0, "A"), Row(2, 20.0, "B"), Row(3, 5.0, "A")]
  }

  lemma SampleTotal()
    ensures Total(SampleRows()) == 35.0
  {
    var rows := SampleRows();
    assert rows[..2][..1] == [Row(1, 10.0, "A")];
    assert Total(rows[..2][..1]) == 10.0;
    assert Total(rows[..2]) == 30.0;
  }

  lemma SampleKpis()
    ensures TimeOrdered(SampleRows(), SampleRows())
    ensures Compute(SampleRows(), SampleRows()) == Kpis(35.0, 35.0 / 3.0, 5.0, 20.0, -15.0)
  {
    SampleTotal();
  }

  lemma SampleKeys()
    ensures Keys(SampleRows()) == ["A", "B"]
  {
    var rows := SampleRows();
    assert rows[..2][..1] == [Row(1, 10.0, "A")];
    assert Keys(rows[..2][..1]) == ["A"];
    assert rows[..2] == [Row(1, 10.0, "A"), Row(2, 20.0, "B")];
  }

  lemma SampleSums()
    ensures GroupSum(SampleRows(), "A") == 15.0
    ensures GroupSum(SampleRows(), "B") == 20.0
  {
    SampleSum("A");
    SampleSum("B");
  }

  /** The sum of one group of the example, adding one row at a time. */
  lemma SampleSum(k: string)
    ensures GroupSum(SampleRows(), k) ==
      (if k == "A" then 10.0 else 0.0) + (if k == "B" then 20.0 else 0.0) + (if k == "A" then 5.0 else 0.0)
  {
    var rows := SampleRows();
    var r2, r1 := rows[..2], rows[..2][..1];
    assert r1[..0] == [];
    GroupSumLast(rows, k);
    GroupSumLast(r2, k);
    GroupSumLast(r1, k);
  }

  lemma SampleGrouped()
    ensures Grouped(SampleRows()) == [Entry("A", 15.0), Entry("B", 20.0)]
  {
    SampleKeys();
    SampleSums();
    TwoKeyGroups(SampleRows(), "A", "B");
  }

  lemma TwoKeyGroups<K(!new)>(rows: seq<Row<K>>, a: K, b: K)
    requires Keys(rows) == [a, b]
    ensures Grouped(rows) == [Entry(a, GroupSum(rows, a)), Entry(b, GroupSum(rows, b))]
  {
    GroupedAt(rows, 0);
    GroupedAt(rows, 1);
  }

  lemma SwapIsRankOrder<K>(g: seq<Entry<K>>, a: Entry<K>, b: Entry<K>)
    requires g == [a, b] && a.sum <= b.sum
    ensures RankOrdered(g, [b, a])
  {
    assert multiset([b, a]) == multiset{b, a} == multiset{a, b} == multiset([a, b]);
  }

  /** Ranking of the example: region B (20) ahead of region A (15). */
  lemma SampleRanking()
    ensures RankOrdered(Grouped(SampleRows()), [Entry("B", 20.0), Entry("A", 15.0)])
    ensures Top(SampleRows(), [Entry("B", 20.0), Entry("A", 15.0)]) == [Entry("B", 20.0), Entry("A", 15.0)]
  {
    var o := [Entry("B", 20.0), Entry("A", 15.0)];
    SampleGrouped();
    SwapIsRankOrder(Grouped(SampleRows()), Entry("A", 15.0), Entry("B", 20.0));
    ShortRankingIsWhole(SampleRows(), o);
  }
}
