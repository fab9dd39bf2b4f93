/** The "KPIs" sheet of the downloadable report (streamlit_kpi_dashboard.py,
    lines 143-151): a two-column table of metric name and value. The bytes of
    the workbook and the "Dados" sheet are not modelled. */
module Report {
  import opened Wrappers
  import opened Kpi

  /** One line of the sheet: the "Métrica" and "Valor" cells. */
  datatype SummaryRow = SummaryRow(metric: string, value: real)

  const TotalLabel: string := "Total acumulado"
  const MeanLabel: string := "Média"
  const LatestLabel: string := "Última leitura"
  const DeltaLabel: string := "Variação"

  /** The metric names of the sheet, top to bottom. */
  function Labels(s: seq<SummaryRow>): (ls: seq<string>)
    ensures |ls| == |s|
    ensures forall i :: 0 <= i < |s| ==> ls[i] == s[i].metric
  {
    seq(|s|, i requires 0 <= i < |s| => s[i].metric)
  }

  /** The value the sheet lists under `name` (its first such line). */
  function Lookup(s: seq<SummaryRow>, name: string): (v: Option<real>)
    ensures v.None? <==> name !in Labels(s)
    ensures v.Some? ==> SummaryRow(name, v.value) in s
    decreases |s|
  {
    if |s| == 0 then None
    else if s[0].metric == name then Some(s[0].value)
    else
      assert Labels(s) == [s[0].metric] + Labels(s[1..]);
      Lookup(s[1..], name)
  }

  /** The summary dictionary turned into rows (lines 143-150). */
  function Summary(k: Kpis): (s: seq<SummaryRow>)
    ensures Labels(s) == [TotalLabel, MeanLabel, LatestLabel, DeltaLabel]
    ensures k.delta == k.latest - k.previous ==> ReadBack(s) == Some(k)
  {
    [ SummaryRow(TotalLabel, k.total),
      SummaryRow(MeanLabel, k.mean),
      SummaryRow(LatestLabel, k.latest),
      SummaryRow(DeltaLabel, k.delta) ]
  }

  /** The sheet has four lines in a fixed order, and reading it by name gives
      back total, mean, latest reading and variation. The previous reading has
      no line of its own. */
  lemma SummaryContents(k: Kpis)
    ensures Labels(Summary(k)) == [TotalLabel, MeanLabel, LatestLabel, DeltaLabel]
    ensures Lookup(Summary(k), TotalLabel) == Some(k.total)
    ensures Lookup(Summary(k), MeanLabel) == Some(k.mean)
    ensures Lookup(Summary(k), LatestLabel) == Some(k.latest)
    ensures Lookup(Summary(k), DeltaLabel) == Some(k.delta)
    ensures forall l :: l !in [TotalLabel, MeanLabel, LatestLabel, DeltaLabel] ==> Lookup(Summary(k), l).None?
  {
    var s := Summary(k);
    LabelsDiffer();
    var t := s[1..][1..];
    assert Lookup(s, MeanLabel) == Some(k.mean);
    assert Lookup(s, LatestLabel) == Some(k.latest) by {
      assert Lookup(s, LatestLabel) == Lookup(t, LatestLabel);
    }
    assert Lookup(s, DeltaLabel) == Some(k.delta) by {
      assert Lookup(s, DeltaLabel) == Lookup(t, DeltaLabel);
      assert t[1..] == [s[3]];
    }
  }

  /** The four metric names are pairwise different (they differ in length). */
  lemma LabelsDiffer()
    ensures TotalLabel != MeanLabel && TotalLabel != LatestLabel && TotalLabel != DeltaLabel
    ensures MeanLabel != LatestLabel && MeanLabel != DeltaLabel && LatestLabel != DeltaLabel
  {
    assert |TotalLabel| == 15 && |MeanLabel| == 5 && |LatestLabel| == 14 && |DeltaLabel| == 8;
  }

  /** Reads a "KPIs" sheet back into the KPIs it reports; the previous reading
      is recovered as latest minus variation. */
  function ReadBack(s: seq<SummaryRow>): Option<Kpis>
  {
    if Labels(s) == [TotalLabel, MeanLabel, LatestLabel, DeltaLabel] then
      Some(Kpis(s[0].value, s[1].value, s[2].value, s[2].value - s[3].value, s[3].value))
    else None
  }

  /** Round trip: the sheet carries the whole KPI summary of the dashboard,
      whose variation is always latest minus previous. */
  lemma ReadBackSummary(k: Kpis)
    requires k.delta == k.latest - k.previous
    ensures ReadBack(Summary(k)) == Some(k)
  {
  }
}
