/** Enrichment (src/App.tsx:292-315): client occurrence counts over the full
    list, currency conversion, the computed customer status and the agent
    override for iherb clients. */
module Enrichment {
  import opened Text
  import opened Rows
  import opened Currency
  import opened Grouping

  const NewClient: string := "新客戶"
  const Renewal: string := "續約客戶"
  const IherbAgent: string := "Iherb (獨立客戶)"

  /** The client identity `brandName || projectName || 'Unknown'`. */
  function ClientName(t: Transaction): (r: string)
    ensures r != ""
    ensures r == t.brandName || r == t.projectName || r == "Unknown"
    ensures t.brandName != "" ==> r == t.brandName
    ensures t.brandName == "" && t.projectName != "" ==> r == t.projectName
    ensures t.brandName == "" && t.projectName == "" ==> r == "Unknown"
  {
    if t.brandName != "" then t.brandName
    else if t.projectName != "" then t.projectName
    else "Unknown"
  }

  /** Whether a client name names iherb, in any letter case. */
  predicate IsIherb(name: string) {
    Contains(Lower(name), "iherb")
  }

  /** The counts `clientCounts` holds for a list: one entry per client
      identity, holding the number of rows with that identity. */
  function CountsOf(ts: seq<Transaction>): (m: map<string, nat>)
    ensures forall k :: k in m <==> k in Keys(ts, ClientName)
  {
    map k | k in Keys(ts, ClientName) :: Count(ts, ClientName, k)
  }

  /** The values of `m` for the keys `ks`, added up. */
  function SumValues(m: map<string, nat>, ks: seq<string>): nat
    requires forall k :: k in ks ==> k in m
  {
    if ks == [] then 0 else SumValues(m, ks[..|ks| - 1]) + m[ks[|ks| - 1]]
  }

  /** `clientCounts`: one pass over the full list, incrementing the entry of
      each row's client identity. Every row is counted once: the values add
      up to the length of the list. */
  method ClientCounts(ts: seq<Transaction>) returns (counts: map<string, nat>)
    ensures counts == CountsOf(ts)
    ensures forall k :: k in counts ==> counts[k] == Count(ts, ClientName, k)
    ensures forall k :: k in Keys(ts, ClientName) ==> k in counts
    ensures SumValues(counts, Keys(ts, ClientName)) == |ts|
  {
    counts := map[];
    var i := 0;
    while i < |ts|
      invariant 0 <= i <= |ts|
      invariant Tallies(counts, ts[..i], ClientName)
    {
      var name := ClientName(ts[i]);
      TallyStep(counts, ts[..i], ts[i], ClientName);
      assert ts[..i + 1] == ts[..i] + [ts[i]];
      counts := counts[name := (if name in counts then counts[name] else 0) + 1];
      i := i + 1;
    }
    assert ts[..i] == ts;
    CountsFinal(counts, ts);
  }

  /** Exact counts are the specification's counts, and they add up to the
      number of rows. */
  lemma CountsFinal(counts: map<string, nat>, ts: seq<Transaction>)
    requires Tallies(counts, ts, ClientName)
    ensures counts == CountsOf(ts)
    ensures SumValues(counts, Keys(ts, ClientName)) == |ts|
  {
    SumValuesOfCounts(counts, ts, Keys(ts, ClientName));
    CountsConserved(ts, ClientName);
  }

  lemma {:induction false} SumValuesOfCounts(m: map<string, nat>, ts: seq<Transaction>, ks: seq<string>)
    requires forall k :: k in ks ==> k in m && m[k] == Count(ts, ClientName, k)
    ensures SumValues(m, ks) == SumCounts(ts, ClientName, ks)
    decreases |ks|
  {
    if ks != [] {
      SumValuesOfCounts(m, ts, ks[..|ks| - 1]);
    }
  }

  /** A row of `filteredData` before filtering: the transaction with the
      displayed agent and the computed status in place of its own, plus the
      converted amount and the currency facts. */
  datatype Enriched = Enriched(
    row: Transaction,
    finalAmount: real,
    originalAmount: real,
    detectedCurrency: string,
    isUSD: bool)

  /** The amount a row contributes to every sum: its converted amount. */
  function Revenue(e: Enriched): real {
    e.finalAmount
  }

  /** `clientCounts[clientName] || 0`. */
  function CountIn(counts: map<string, nat>, name: string): nat {
    if name in counts then counts[name] else 0
  }

  /** The `transactions.map(...)` step of `filteredData`. */
  function Enrich(t: Transaction, counts: map<string, nat>, rate: real): (e: Enriched)
    ensures e.originalAmount == t.amount
    ensures e.isUSD <==> !IsLocal(t.currency)
    ensures e.finalAmount == e.originalAmount * (if e.isUSD then rate else 1.0)
    ensures e.detectedCurrency == DetectedCurrency(t.currency)
    ensures e.row.status == (if CountIn(counts, ClientName(t)) >= 2 then Renewal else NewClient)
    ensures e.row.agentName == if IsIherb(ClientName(t)) then IherbAgent else t.agentName
    ensures e.row == t.(agentName := e.row.agentName, status := e.row.status)
  {
    var local := IsLocal(t.currency);
    var name := ClientName(t);
    var agent := if IsIherb(name) then IherbAgent else t.agentName;
    var status := if CountIn(counts, name) >= 2 then Renewal else NewClient;
    Enriched(t.(agentName := agent, status := status), if local then t.amount else t.amount * rate, t.amount, DetectedCurrency(t.currency), !local)
  }

  /** The enriched list, with the counts of the full list. */
  function EnrichAll(ts: seq<Transaction>, rate: real): (es: seq<Enriched>)
    ensures |es| == |ts|
  {
    var counts := CountsOf(ts);
    seq(|ts|, i requires 0 <= i < |ts| => Enrich(ts[i], counts, rate))
  }

  /** A row is a renewal exactly when another row of the full list has the
      same client identity, and a new client otherwise. */
  lemma StatusFromFullList(ts: seq<Transaction>, rate: real, i: nat)
    requires i < |ts|
    ensures EnrichAll(ts, rate)[i].row.status == Renewal <==>
              exists j :: 0 <= j < |ts| && j != i && ClientName(ts[j]) == ClientName(ts[i])
    ensures EnrichAll(ts, rate)[i].row.status == Renewal || EnrichAll(ts, rate)[i].row.status == NewClient
  {
    var name := ClientName(ts[i]);
    assert name in Keys(ts, ClientName);
    assert CountIn(CountsOf(ts), name) == Count(ts, ClientName, name);
    CountAtLeastTwo(ts, ClientName, i);
  }

  /** Rows of the same client get the same status. */
  lemma SameClientSameStatus(ts: seq<Transaction>, rate: real, i: nat, j: nat)
    requires i < |ts| && j < |ts| && ClientName(ts[i]) == ClientName(ts[j])
    ensures EnrichAll(ts, rate)[i].row.status == EnrichAll(ts, rate)[j].row.status
  {
  }

  /** Every row whose client identity names iherb is credited to the
      independent iherb agent. */
  lemma IherbOverride(ts: seq<Transaction>, rate: real, i: nat)
    requires i < |ts| && IsIherb(ClientName(ts[i]))
    ensures EnrichAll(ts, rate)[i].row.agentName == IherbAgent
  {
  }
}
