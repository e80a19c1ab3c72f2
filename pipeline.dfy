/** The dashboard end to end: the raw sheet rows are mapped for the signed-in
    user's permissions (src/App.tsx:549-570), enriched with the client counts
    of the full list and the exchange rate (src/App.tsx:292-315), filtered
    (src/App.tsx:316-328), and summarised into the statistics
    (src/App.tsx:331-357) and the monthly series (src/App.tsx:143-163). */
module Pipeline {
  import opened Rows
  import opened Enrichment
  import opened Filters
  import opened Grouping
  import opened Stats
  import opened Monthly

  /** The rows the dashboard summarises. */
  function Shown(rows: seq<RawRow>, permissions: string, rate: real, f: Filters): seq<Enriched> {
    FilterRows(f, EnrichAll(FetchRows(rows, permissions), rate))
  }

  /** The statistics the dashboard shows. */
  function Dashboard(rows: seq<RawRow>, permissions: string, rate: real, f: Filters): Stats {
    StatsOf(Shown(rows, permissions, rate, f))
  }

  /** The monthly series the market analysis shows. */
  function DashboardSeries(rows: seq<RawRow>, permissions: string, rate: real, f: Filters, mode: ViewMode): Series {
    SeriesOf(Shown(rows, permissions, rate, f), mode)
  }

  lemma {:induction false} TotalOfZeros<T>(ts: seq<T>, amount: T -> real)
    requires forall i :: 0 <= i < |ts| ==> amount(ts[i]) == 0.0
    ensures Total(ts, amount) == 0.0
    decreases |ts|
  {
    if ts != [] {
      TotalOfZeros(ts[..|ts| - 1], amount);
    }
  }

  lemma {:induction false} WhereOfZeros<T>(ts: seq<T>, p: T -> bool, amount: T -> real)
    requires forall i :: 0 <= i < |ts| ==> amount(ts[i]) == 0.0
    ensures forall i :: 0 <= i < |Where(ts, p)| ==> amount(Where(ts, p)[i]) == 0.0
    decreases |ts|
  {
    if ts != [] {
      WhereOfZeros(ts[..|ts| - 1], p, amount);
    }
  }

  /** Masked amounts stay 0 through conversion and filtering. */
  lemma ShownAmountsZero(rows: seq<RawRow>, permissions: string, rate: real, f: Filters)
    requires AmountMasked(permissions)
    ensures forall e :: e in Shown(rows, permissions, rate, f) ==> e.finalAmount == 0.0
  {
    var ts := FetchRows(rows, permissions);
    assert forall i :: 0 <= i < |ts| ==> ts[i].amount == 0.0;
    EnrichedZeros(ts, rate);
  }

  lemma EnrichedZeros(ts: seq<Transaction>, rate: real)
    requires forall i :: 0 <= i < |ts| ==> ts[i].amount == 0.0
    ensures forall e :: e in EnrichAll(ts, rate) ==> e.finalAmount == 0.0
  {
    var all := EnrichAll(ts, rate);
    forall e | e in all
      ensures e.finalAmount == 0.0
    {
      var i :| 0 <= i < |all| && all[i] == e;
      assert e == Enrich(ts[i], CountsOf(ts), rate);
    }
  }

  /** Rows worth 0 add up to a total revenue of 0. */
  lemma ZeroStats(es: seq<Enriched>)
    requires forall e :: e in es ==> e.finalAmount == 0.0
    ensures StatsOf(es).totalRevenue == 0.0
  {
    TotalOfZeros(es, Revenue);
    assert StatsOf(es).totalRevenue == Total(es, Revenue);
  }

  /** Rows worth 0 give both sides of the monthly split a revenue of 0 in
      sum. */
  lemma ZeroSeries(es: seq<Enriched>, mode: ViewMode)
    requires forall e :: e in es ==> e.finalAmount == 0.0
    ensures SeriesOf(es, mode).s1.revenue + SeriesOf(es, mode).s2.revenue == 0.0
  {
    var vs := Parsed(es);
    assert forall i :: 0 <= i < |es| ==> Revenue(es[i]) == 0.0;
    WhereOfZeros(es, HasDate, Revenue);
    TotalOfZeros(vs, Revenue);
    SidesSplitTotal(vs, Revenue, Key1(mode), IherbRow);
    assert SeriesOf(es, mode).s1.revenue == SideTally(vs, Revenue, Key1(mode), true, IherbRow).revenue;
    assert SeriesOf(es, mode).s2.revenue == SideTally(vs, Revenue, Key1(mode), false, IherbRow).revenue;
  }

  /** A user who may not see the amount sees a revenue of 0 everywhere:
      every shown row is worth 0 after conversion, so is the total, and so
      are both sides of the monthly split together. */
  lemma MaskedDashboard(rows: seq<RawRow>, permissions: string, rate: real, f: Filters, mode: ViewMode)
    requires AmountMasked(permissions)
    ensures forall e :: e in Shown(rows, permissions, rate, f) ==> e.finalAmount == 0.0
    ensures Dashboard(rows, permissions, rate, f).totalRevenue == 0.0
    ensures DashboardSeries(rows, permissions, rate, f, mode).s1.revenue + DashboardSeries(rows, permissions, rate, f, mode).s2.revenue == 0.0
  {
    ShownAmountsZero(rows, permissions, rate, f);
    ZeroStats(Shown(rows, permissions, rate, f));
    ZeroSeries(Shown(rows, permissions, rate, f), mode);
  }

  /** A user who may see the amount gets the same figures as one with every
      permission. */
  lemma UnmaskedMatchesFull(rows: seq<RawRow>, permissions: string, rate: real, f: Filters)
    requires !AmountMasked(permissions)
    ensures Shown(rows, permissions, rate, f) == Shown(rows, "all", rate, f)
    ensures Dashboard(rows, permissions, rate, f) == Dashboard(rows, "all", rate, f)
  {
    forall i | 0 <= i < |rows|
      ensures MapRow(rows[i], permissions) == MapRow(rows[i], "all")
    {
      MaskingOnlyTouchesAmount(rows[i], permissions);
    }
    assert FetchRows(rows, permissions) == FetchRows(rows, "all");
  }
}
