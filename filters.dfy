/** The `filter` step of `filteredData` (src/App.tsx:316-328): rows without
    a date are dropped, then six optional criteria, each switched off by
    `'All'`, must all hold. */
module Filters {
  import opened Text
  import opened Dates
  import opened Rows
  import opened Enrichment

  /** The six filter settings of the dashboard. */
  datatype Filters = Filters(year: string, quarter: string, month: string, status: string, agent: string, industry: string)

  const AllFilters: Filters := Filters("All", "All", "All", "All", "All", "All")

  /** One criterion: `'All'` accepts anything, otherwise the row's value must
      equal the setting. */
  predicate Accepts(setting: string, value: string) {
    setting == "All" || value == setting
  }

  /** Whether an enriched row survives the filters. The agent compared is
      the displayed one, after the iherb override, and the status is the
      computed one. */
  predicate Keep(f: Filters, e: Enriched) {
    var d := e.row.date;
    d != "" &&
    Accepts(f.year, YearText(d)) &&
    Accepts(f.quarter, QuarterText(d)) &&
    Accepts(f.month, MonthText(d)) &&
    Accepts(f.status, e.row.status) &&
    Accepts(f.agent, e.row.agentName) &&
    Accepts(f.industry, e.row.industry)
  }

  /** `filteredData`'s `filter`: the rows that survive, in their order. */
  function FilterRows(f: Filters, es: seq<Enriched>): (r: seq<Enriched>)
    ensures |r| <= |es|
    ensures forall x :: x in r <==> x in es && Keep(f, x)
  {
    if es == [] then []
    else (if Keep(f, es[0]) then [es[0]] else []) + FilterRows(f, es[1..])
  }

  /** Filtering works row by row: filtering a concatenation concatenates the
      filtered parts, so the kept rows keep their relative order. */
  lemma {:induction false} FilterAppend(f: Filters, a: seq<Enriched>, b: seq<Enriched>)
    ensures FilterRows(f, a + b) == FilterRows(f, a) + FilterRows(f, b)
    decreases |a|
  {
    if a == [] {
      assert a + b == b;
    } else {
      assert (a + b)[0] == a[0] && (a + b)[1..] == a[1..] + b;
      FilterAppend(f, a[1..], b);
    }
  }

  /** The rows that have a date. */
  function Dated(es: seq<Enriched>): (r: seq<Enriched>)
    ensures forall x :: x in r <==> x in es && x.row.date != ""
  {
    if es == [] then []
    else (if es[0].row.date != "" then [es[0]] else []) + Dated(es[1..])
  }

  /** With every filter set to `'All'` exactly the dated rows remain. */
  lemma {:induction false} AllFiltersKeepDated(es: seq<Enriched>)
    ensures FilterRows(AllFilters, es) == Dated(es)
    decreases |es|
  {
    if es != [] {
      AllFiltersKeepDated(es[1..]);
    }
  }

  /** A status setting other than the two computed labels keeps nothing,
      whatever the raw status column said. */
  lemma {:induction false} UnknownStatusKeepsNothing(f: Filters, ts: seq<Transaction>, rate: real)
    requires f.status != "All" && f.status != NewClient && f.status != Renewal
    ensures FilterRows(f, EnrichAll(ts, rate)) == []
  {
    var es := EnrichAll(ts, rate);
    forall x | x in es
      ensures !Keep(f, x)
    {
      var i :| 0 <= i < |es| && es[i] == x;
      StatusFromFullList(ts, rate, i);
    }
    if FilterRows(f, es) != [] {
      assert FilterRows(f, es)[0] in FilterRows(f, es);
    }
  }

  /** A row kept by the filters carries the status computed from the full,
      unfiltered list: filtering never reclassifies a client. */
  lemma StatusIndependentOfFilters(f: Filters, ts: seq<Transaction>, rate: real, x: Enriched)
    requires x in FilterRows(f, EnrichAll(ts, rate))
    ensures exists i :: 0 <= i < |ts| && x == EnrichAll(ts, rate)[i] &&
              (x.row.status == Renewal <==> exists j :: 0 <= j < |ts| && j != i && ClientName(ts[j]) == ClientName(ts[i]))
  {
    var es := EnrichAll(ts, rate);
    var i :| 0 <= i < |es| && es[i] == x;
    StatusFromFullList(ts, rate, i);
  }

  /** An iherb client's row passes an agent filter only when the filter names
      the independent iherb agent, never its original agent. */
  lemma AgentFilterSeesOverride(f: Filters, ts: seq<Transaction>, rate: real, i: nat)
    requires i < |ts| && IsIherb(ClientName(ts[i])) && f.agent != "All"
    requires Keep(f, EnrichAll(ts, rate)[i])
    ensures f.agent == IherbAgent
  {
    IherbOverride(ts, rate, i);
  }

  /** The year-2024, first-quarter view. */
  const Q1Of2024: Filters := AllFilters.(year := "2024", quarter := "1")

  /** The year-2024, first-quarter view keeps a row of 15 January 2024 and
      drops rows of 1 April 2024 and 15 January 2023. */
  lemma YearAndQuarterCombine(e1: Enriched, e2: Enriched, e3: Enriched)
    requires e1.row.date == "2024-01-15" && e2.row.date == "2024-04-01" && e3.row.date == "2023-01-15"
    ensures Keep(Q1Of2024, e1)
    ensures !Keep(Q1Of2024, e2)
    ensures !Keep(Q1Of2024, e3)
  {
    January2024();
    April2024();
    assert YearText("2023-01-15") == "2023";
  }

  lemma January2024()
    ensures YearText("2024-01-15") == "2024"
    ensures QuarterText("2024-01-15") == "1"
  {
    var d := "2024-01-15";
    assert d[..4] == "2024" && d[5..7] == "01" && d[8..10] == "15";
    assert DigitsValue("01") == 1 by {
      assert "01"[..1] == "0";
    }
    assert DigitsValue("15") == 15 by {
      assert "15"[..1] == "1";
    }
    assert ParseDate(d).Some? && ParseDate(d).value.month == 1;
    assert Decimal(1) == "1";
  }

  lemma April2024()
    ensures QuarterText("2024-04-01") == "2"
  {
    var d := "2024-04-01";
    assert d[..4] == "2024" && d[5..7] == "04" && d[8..10] == "01";
    assert DigitsValue("04") == 4 by {
      assert "04"[..1] == "0";
    }
    assert DigitsValue("01") == 1 by {
      assert "01"[..1] == "0";
    }
    assert ParseDate(d).Some? && ParseDate(d).value.month == 4;
    assert Decimal(2) == "2";
  }
}
