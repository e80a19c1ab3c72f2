/** The `stats` memo (src/App.tsx:331-357): one pass over the filtered rows
    accumulates the total revenue and three keyed maps (agents, industries,
    clients); each map's values are then ranked by revenue, industries get a
    share of the total, and clients are cut to the top 50. */
module Stats {
  import opened Rows
  import opened Enrichment
  import opened Grouping
  import opened Ranking

  /** An agent's entry in `bdMap`. */
  datatype AgentGroup = AgentGroup(name: string, revenue: real, count: nat, brands: set<string>)

  /** An entry in `industryMap` or `clientMap`. */
  datatype Group = Group(name: string, revenue: real, count: nat)

  /** An entry of the industry ranking, with its share of the total. */
  datatype IndustryShare = IndustryShare(name: string, revenue: real, count: nat, share: real)

  datatype Stats = Stats(
    totalRevenue: real,
    bdRanking: seq<AgentGroup>,
    industryRanking: seq<IndustryShare>,
    clientRanking: seq<Group>,
    totalCount: nat)

  const UnknownAgent: string := "Unknown"
  const Unclassified: string := "未分類"

  /** `t.agentName || 'Unknown'`, the displayed agent. */
  function AgentKey(e: Enriched): (k: string)
    ensures k != ""
    ensures e.row.agentName != "" ==> k == e.row.agentName
    ensures e.row.agentName == "" ==> k == UnknownAgent
  {
    if e.row.agentName != "" then e.row.agentName else UnknownAgent
  }

  /** `t.industry || '未分類'`. */
  function IndustryKey(e: Enriched): (k: string)
    ensures k != ""
    ensures e.row.industry != "" ==> k == e.row.industry
    ensures e.row.industry == "" ==> k == Unclassified
  {
    if e.row.industry != "" then e.row.industry else Unclassified
  }

  /** `t.brandName || t.projectName || 'Unknown'`. */
  function ClientKey(e: Enriched): (k: string)
    ensures k != ""
  {
    ClientName(e.row)
  }

  /** The row's project name, which `bdMap` collects per agent. */
  function Project(e: Enriched): string {
    e.row.projectName
  }

  /** The non-empty project names among the rows filed under `k`. */
  function Brands<T>(ts: seq<T>, key: T -> string, project: T -> string, k: string): (b: set<string>)
    ensures forall p :: p in b <==> exists i :: 0 <= i < |ts| && key(ts[i]) == k && project(ts[i]) == p && p != ""
    decreases |ts|
  {
    if ts == [] then {}
    else
      var init, t := ts[..|ts| - 1], ts[|ts| - 1];
      assert forall j :: 0 <= j < |init| ==> ts[j] == init[j];
      Brands(init, key, project, k) + (if key(t) == k && project(t) != "" then {project(t)} else {})
  }

  function AgentGroupOf<T>(ts: seq<T>, key: T -> string, amount: T -> real, project: T -> string, k: string): AgentGroup {
    AgentGroup(k, Amount(ts, key, amount, k), Count(ts, key, k), Brands(ts, key, project, k))
  }

  function GroupOf<T>(ts: seq<T>, key: T -> string, amount: T -> real, k: string): Group {
    Group(k, Amount(ts, key, amount, k), Count(ts, key, k))
  }

  /** `Object.values(bdMap)`: the agent groups in first-appearance order. */
  function AgentGroups<T>(ts: seq<T>, key: T -> string, amount: T -> real, project: T -> string, ks: seq<string>): (gs: seq<AgentGroup>)
    ensures |gs| == |ks| && forall i :: 0 <= i < |ks| ==> gs[i] == AgentGroupOf(ts, key, amount, project, ks[i])
  {
    seq(|ks|, i requires 0 <= i < |ks| => AgentGroupOf(ts, key, amount, project, ks[i]))
  }

  /** `Object.values(industryMap)` or `Object.values(clientMap)`. */
  function Groups<T>(ts: seq<T>, key: T -> string, amount: T -> real, ks: seq<string>): (gs: seq<Group>)
    ensures |gs| == |ks| && forall i :: 0 <= i < |ks| ==> gs[i] == GroupOf(ts, key, amount, ks[i])
  {
    seq(|ks|, i requires 0 <= i < |ks| => GroupOf(ts, key, amount, ks[i]))
  }

  function AgentName(g: AgentGroup): string { g.name }
  function AgentRevenue(g: AgentGroup): real { g.revenue }
  function AgentCount(g: AgentGroup): real { g.count as real }
  function GroupRevenue(g: Group): real { g.revenue }
  function GroupCount(g: Group): real { g.count as real }
  function ShareRevenue(g: IndustryShare): real { g.revenue }
  function ShareCount(g: IndustryShare): real { g.count as real }
  function Share(g: IndustryShare): real { g.share }

  /** An industry's percentage of the total, 0 when the total is not positive. */
  function WithShare(g: Group, total: real): (s: IndustryShare)
    ensures s.name == g.name && s.revenue == g.revenue && s.count == g.count
    ensures total > 0.0 ==> s.share * total == g.revenue * 100.0
    ensures total <= 0.0 ==> s.share == 0.0
  {
    IndustryShare(g.name, g.revenue, g.count, if total > 0.0 then g.revenue / total * 100.0 else 0.0)
  }

  function WithShares(gs: seq<Group>, total: real): (ss: seq<IndustryShare>)
    ensures |ss| == |gs| && forall i :: 0 <= i < |gs| ==> ss[i] == WithShare(gs[i], total)
  {
    if gs == [] then [] else [WithShare(gs[0], total)] + WithShares(gs[1..], total)
  }

  /** What the `stats` memo computes for the filtered rows `es`. */
  function StatsOf(es: seq<Enriched>): Stats {
    var total := Total(es, Revenue);
    Stats(
      total,
      SortDesc(AgentGroups(es, AgentKey, Revenue, Project, Keys(es, AgentKey)), AgentRevenue),
      SortDesc(WithShares(Groups(es, IndustryKey, Revenue, Keys(es, IndustryKey)), total), ShareRevenue),
      Take(SortDesc(Groups(es, ClientKey, Revenue, Keys(es, ClientKey)), GroupRevenue), 50),
      |es|)
  }

  /** The full client ranking, before it is cut to 50. */
  function AllClients(es: seq<Enriched>): seq<Group> {
    SortDesc(Groups(es, ClientKey, Revenue, Keys(es, ClientKey)), GroupRevenue)
  }

  /** `m` and its insertion-ordered key list `ks` hold exactly the groups of `ts`. */
  ghost predicate GroupsMatch<T>(m: map<string, Group>, ks: seq<string>, ts: seq<T>, key: T -> string, amount: T -> real) {
    ks == Keys(ts, key) &&
    (forall k :: k in m <==> k in ks) &&
    (forall k :: k in m ==> m[k] == GroupOf(ts, key, amount, k))
  }

  ghost predicate AgentsMatch<T>(m: map<string, AgentGroup>, ks: seq<string>, ts: seq<T>, key: T -> string, amount: T -> real, project: T -> string) {
    ks == Keys(ts, key) &&
    (forall k :: k in m <==> k in ks) &&
    (forall k :: k in m ==> m[k] == AgentGroupOf(ts, key, amount, project, k))
  }

  /** The entry a key has before the row is added: the existing one or a
      fresh zero entry. */
  function Base(m: map<string, Group>, k: string): Group {
    if k in m then m[k] else Group(k, 0.0, 0)
  }

  function AgentBase(m: map<string, AgentGroup>, k: string): AgentGroup {
    if k in m then m[k] else AgentGroup(k, 0.0, 0, {})
  }

  /** Adding one row to its group keeps the map exact. */
  lemma GroupStep<T>(m: map<string, Group>, ks: seq<string>, ts: seq<T>, t: T, key: T -> string, amount: T -> real,
                     m': map<string, Group>, ks': seq<string>)
    requires GroupsMatch(m, ks, ts, key, amount)
    requires m'.Keys == m.Keys + {key(t)}
    requires m'[key(t)] == Group(key(t), Base(m, key(t)).revenue + amount(t), Base(m, key(t)).count + 1)
    requires forall j :: j in m' && j != key(t) ==> j in m && m'[j] == m[j]
    requires ks' == if key(t) in m then ks else ks + [key(t)]
    ensures GroupsMatch(m', ks', ts + [t], key, amount)
  {
    var k := key(t);
    assert ks' == Keys(ts + [t], key) by {
      KeysSnoc(ts, t, key);
    }
    assert forall j :: j in m' <==> j in ks' by {
      UpdatedDomain(m, ks, k, m', ks');
    }
    assert m'[k] == GroupOf(ts + [t], key, amount, k) by {
      GroupBaseExact(m, ks, ts, key, amount, k);
      CountSnoc(ts, t, key, k);
      AmountSnoc(ts, t, key, amount, k);
    }
    assert forall j :: j in m' && j != k ==> m'[j] == GroupOf(ts + [t], key, amount, j) by {
      GroupOthers(m, m', ts, t, key, amount);
    }
  }

  lemma GroupBaseExact<T>(m: map<string, Group>, ks: seq<string>, ts: seq<T>, key: T -> string, amount: T -> real, k: string)
    requires GroupsMatch(m, ks, ts, key, amount)
    ensures Base(m, k) == GroupOf(ts, key, amount, k)
  {
    if k !in m {
      CountZero(ts, key, k);
      AmountOfAbsent(ts, key, amount, k);
    }
  }

  lemma GroupOthers<T>(m: map<string, Group>, m': map<string, Group>, ts: seq<T>, t: T, key: T -> string, amount: T -> real)
    requires forall j :: j in m ==> m[j] == GroupOf(ts, key, amount, j)
    requires forall j :: j in m' && j != key(t) ==> j in m && m'[j] == m[j]
    ensures forall j :: j in m' && j != key(t) ==> m'[j] == GroupOf(ts + [t], key, amount, j)
  {
    forall j | j in m' && j != key(t)
      ensures m'[j] == GroupOf(ts + [t], key, amount, j)
    {
      CountSnoc(ts, t, key, j);
      AmountSnoc(ts, t, key, amount, j);
    }
  }

  lemma CountZero<T>(ts: seq<T>, key: T -> string, k: string)
    requires k !in Keys(ts, key)
    ensures Count(ts, key, k) == 0
  {
  }

  lemma AgentStep<T>(m: map<string, AgentGroup>, ks: seq<string>, ts: seq<T>, t: T, key: T -> string, amount: T -> real, project: T -> string,
                     m': map<string, AgentGroup>, ks': seq<string>)
    requires AgentsMatch(m, ks, ts, key, amount, project)
    requires m'.Keys == m.Keys + {key(t)}
    requires m'[key(t)] == AgentGroup(key(t), AgentBase(m, key(t)).revenue + amount(t), AgentBase(m, key(t)).count + 1,
               if project(t) != "" then AgentBase(m, key(t)).brands + {project(t)} else AgentBase(m, key(t)).brands)
    requires forall j :: j in m' && j != key(t) ==> j in m && m'[j] == m[j]
    requires ks' == if key(t) in m then ks else ks + [key(t)]
    ensures AgentsMatch(m', ks', ts + [t], key, amount, project)
  {
    var k := key(t);
    assert ks' == Keys(ts + [t], key) by {
      KeysSnoc(ts, t, key);
    }
    assert forall j :: j in m' <==> j in ks' by {
      UpdatedDomain(m, ks, k, m', ks');
    }
    assert m'[k] == AgentGroupOf(ts + [t], key, amount, project, k) by {
      AgentBaseExact(m, ks, ts, key, amount, project, k);
      AgentEntryStep(AgentBase(m, k), ts, t, key, amount, project);
    }
    assert forall j :: j in m' && j != k ==> m'[j] == AgentGroupOf(ts + [t], key, amount, project, j) by {
      AgentOthers(m, m', ts, t, key, amount, project);
    }
  }

  /** Creating the key if it is new keeps the map's keys and the key list
      in step. */
  lemma UpdatedDomain<G>(m: map<string, G>, ks: seq<string>, k: string, m': map<string, G>, ks': seq<string>)
    requires forall j :: j in m <==> j in ks
    requires m'.Keys == m.Keys + {k}
    requires ks' == if k in m then ks else ks + [k]
    ensures forall j :: j in m' <==> j in ks'
  {
  }

  /** Before the row is added, its key's entry is already the group of the
      rows so far (all zero when the key is new). */
  lemma AgentBaseExact<T>(m: map<string, AgentGroup>, ks: seq<string>, ts: seq<T>, key: T -> string, amount: T -> real, project: T -> string, k: string)
    requires AgentsMatch(m, ks, ts, key, amount, project)
    ensures AgentBase(m, k) == AgentGroupOf(ts, key, amount, project, k)
  {
    if k !in m {
      CountZero(ts, key, k);
      AmountOfAbsent(ts, key, amount, k);
      assert Brands(ts, key, project, k) == {};
    }
  }

  /** The entries of the keys other than the row's stay exact. */
  lemma AgentOthers<T>(m: map<string, AgentGroup>, m': map<string, AgentGroup>, ts: seq<T>, t: T, key: T -> string, amount: T -> real, project: T -> string)
    requires forall j :: j in m ==> m[j] == AgentGroupOf(ts, key, amount, project, j)
    requires forall j :: j in m' && j != key(t) ==> j in m && m'[j] == m[j]
    ensures forall j :: j in m' && j != key(t) ==> m'[j] == AgentGroupOf(ts + [t], key, amount, project, j)
  {
    forall j | j in m' && j != key(t)
      ensures m'[j] == AgentGroupOf(ts + [t], key, amount, project, j)
    {
      AgentOtherStep(ts, t, key, amount, project, j);
    }
  }

  /** The row's own group gains its amount, one row and its project. */
  lemma AgentEntryStep<T>(b: AgentGroup, ts: seq<T>, t: T, key: T -> string, amount: T -> real, project: T -> string)
    requires b == AgentGroupOf(ts, key, amount, project, key(t))
    ensures AgentGroup(key(t), b.revenue + amount(t), b.count + 1, if project(t) != "" then b.brands + {project(t)} else b.brands)
            == AgentGroupOf(ts + [t], key, amount, project, key(t))
  {
    CountSnoc(ts, t, key, key(t));
    AmountSnoc(ts, t, key, amount, key(t));
    BrandsSnoc(ts, t, key, project, key(t));
  }

  /** Every other group is unchanged by the row. */
  lemma AgentOtherStep<T>(ts: seq<T>, t: T, key: T -> string, amount: T -> real, project: T -> string, j: string)
    requires j != key(t)
    ensures AgentGroupOf(ts + [t], key, amount, project, j) == AgentGroupOf(ts, key, amount, project, j)
  {
    CountSnoc(ts, t, key, j);
    AmountSnoc(ts, t, key, amount, j);
    BrandsSnoc(ts, t, key, project, j);
  }

  lemma BrandsSnoc<T>(ts: seq<T>, t: T, key: T -> string, project: T -> string, k: string)
    ensures Brands(ts + [t], key, project, k) == Brands(ts, key, project, k) + (if key(t) == k && project(t) != "" then {project(t)} else {})
  {
    assert (ts + [t])[..|ts|] == ts;
  }

  /** One row's update of `industryMap` or `clientMap`: create the entry
      at zero if the key is new, then add the amount and one to the count. */
  method AddToGroup<T>(m: map<string, Group>, ks: seq<string>, ghost ts: seq<T>, t: T, key: T -> string, amount: T -> real)
    returns (m': map<string, Group>, ks': seq<string>)
    requires GroupsMatch(m, ks, ts, key, amount)
    ensures GroupsMatch(m', ks', ts + [t], key, amount)
  {
    var k := key(t);
    m', ks' := m, ks;
    if k !in m' {
      m' := m'[k := Group(k, 0.0, 0)];
      ks' := ks' + [k];
    }
    m' := m'[k := Group(k, m'[k].revenue + amount(t), m'[k].count + 1)];
    GroupStep(m, ks, ts, t, key, amount, m', ks');
  }

  /** One row's update of `bdMap`, which also collects the row's project. */
  method AddToAgent<T>(m: map<string, AgentGroup>, ks: seq<string>, ghost ts: seq<T>, t: T, key: T -> string, amount: T -> real, project: T -> string)
    returns (m': map<string, AgentGroup>, ks': seq<string>)
    requires AgentsMatch(m, ks, ts, key, amount, project)
    ensures AgentsMatch(m', ks', ts + [t], key, amount, project)
  {
    var k := key(t);
    m', ks' := m, ks;
    if k !in m' {
      m' := m'[k := AgentGroup(k, 0.0, 0, {})];
      ks' := ks' + [k];
    }
    var brands := m'[k].brands;
    if project(t) != "" {
      brands := brands + {project(t)};
    }
    m' := m'[k := AgentGroup(k, m'[k].revenue + amount(t), m'[k].count + 1, brands)];
    AgentStep(m, ks, ts, t, key, amount, project, m', ks');
  }

  /** The `forEach` of the `stats` memo: one pass adding each row to the
      total and to its agent, industry and client entries. */
  method Accumulate(es: seq<Enriched>)
    returns (total: real,
             bdMap: map<string, AgentGroup>, bdKeys: seq<string>,
             industryMap: map<string, Group>, industryKeys: seq<string>,
             clientMap: map<string, Group>, clientKeys: seq<string>)
    ensures total == Total(es, Revenue)
    ensures AgentsMatch(bdMap, bdKeys, es, AgentKey, Revenue, Project)
    ensures GroupsMatch(industryMap, industryKeys, es, IndustryKey, Revenue)
    ensures GroupsMatch(clientMap, clientKeys, es, ClientKey, Revenue)
  {
    total := 0.0;
    bdMap, bdKeys := map[], [];
    industryMap, industryKeys := map[], [];
    clientMap, clientKeys := map[], [];
    ghost var done: seq<Enriched> := [];
    for i := 0 to |es|
      invariant done == es[..i]
      invariant total == Total(done, Revenue)
      invariant AgentsMatch(bdMap, bdKeys, done, AgentKey, Revenue, Project)
      invariant GroupsMatch(industryMap, industryKeys, done, IndustryKey, Revenue)
      invariant GroupsMatch(clientMap, clientKeys, done, ClientKey, Revenue)
    {
      var t := es[i];
      assert es[..i + 1] == done + [t];
      total, bdMap, bdKeys, industryMap, industryKeys, clientMap, clientKeys :=
        AddRow(total, bdMap, bdKeys, industryMap, industryKeys, clientMap, clientKeys, done, t);
      done := done + [t];
    }
    assert done == es;
  }

  /** The body of the `forEach`: one row added to the total and to its
      agent, industry and client entries. */
  method AddRow(total: real,
                bdMap: map<string, AgentGroup>, bdKeys: seq<string>,
                industryMap: map<string, Group>, industryKeys: seq<string>,
                clientMap: map<string, Group>, clientKeys: seq<string>,
                ghost done: seq<Enriched>, t: Enriched)
    returns (total': real,
             bdMap': map<string, AgentGroup>, bdKeys': seq<string>,
             industryMap': map<string, Group>, industryKeys': seq<string>,
             clientMap': map<string, Group>, clientKeys': seq<string>)
    requires total == Total(done, Revenue)
    requires AgentsMatch(bdMap, bdKeys, done, AgentKey, Revenue, Project)
    requires GroupsMatch(industryMap, industryKeys, done, IndustryKey, Revenue)
    requires GroupsMatch(clientMap, clientKeys, done, ClientKey, Revenue)
    ensures total' == Total(done + [t], Revenue)
    ensures AgentsMatch(bdMap', bdKeys', done + [t], AgentKey, Revenue, Project)
    ensures GroupsMatch(industryMap', industryKeys', done + [t], IndustryKey, Revenue)
    ensures GroupsMatch(clientMap', clientKeys', done + [t], ClientKey, Revenue)
  {
    TotalSnoc(done, t, Revenue);
    total' := total + t.finalAmount;
    bdMap', bdKeys' := AddToAgent(bdMap, bdKeys, done, t, AgentKey, Revenue, Project);
    industryMap', industryKeys' := AddToGroup(industryMap, industryKeys, done, t, IndustryKey, Revenue);
    clientMap', clientKeys' := AddToGroup(clientMap, clientKeys, done, t, ClientKey, Revenue);
  }

  /** The `stats` memo: the accumulation pass, then the rankings of the
      three maps' values. */
  method ComputeStats(es: seq<Enriched>) returns (st: Stats)
    ensures st == StatsOf(es)
  {
    var total, bdMap, bdKeys, industryMap, industryKeys, clientMap, clientKeys := Accumulate(es);
    AgentValues(bdMap, bdKeys, es, AgentKey, Revenue, Project);
    GroupValues(industryMap, industryKeys, es, IndustryKey, Revenue);
    GroupValues(clientMap, clientKeys, es, ClientKey, Revenue);
    var agents := Values(bdMap, bdKeys);
    var industries := Values(industryMap, industryKeys);
    var clients := Values(clientMap, clientKeys);
    st := Stats(
      total,
      SortDesc(agents, AgentRevenue),
      SortDesc(WithShares(industries, total), ShareRevenue),
      Take(SortDesc(clients, GroupRevenue), 50),
      |es|);
  }

  /** The map's values in key-creation order are the specified groups. */
  lemma GroupValues<T>(m: map<string, Group>, ks: seq<string>, ts: seq<T>, key: T -> string, amount: T -> real)
    requires GroupsMatch(m, ks, ts, key, amount)
    ensures Values(m, ks) == Groups(ts, key, amount, Keys(ts, key))
  {
  }

  lemma AgentValues<T>(m: map<string, AgentGroup>, ks: seq<string>, ts: seq<T>, key: T -> string, amount: T -> real, project: T -> string)
    requires AgentsMatch(m, ks, ts, key, amount, project)
    ensures Values(m, ks) == AgentGroups(ts, key, amount, project, Keys(ts, key))
  {
  }

  /** The group revenues and counts add up to the per-key sums. */
  lemma {:induction false} GroupsSums<T>(ts: seq<T>, key: T -> string, amount: T -> real, ks: seq<string>)
    ensures SumOf(Groups(ts, key, amount, ks), GroupRevenue) == SumAmounts(ts, key, amount, ks)
    ensures SumOf(Groups(ts, key, amount, ks), GroupCount) == SumCounts(ts, key, ks) as real
    decreases |ks|
  {
    if ks != [] {
      var init := ks[..|ks| - 1];
      GroupsSums(ts, key, amount, init);
      var gs := Groups(ts, key, amount, init);
      var g := GroupOf(ts, key, amount, ks[|ks| - 1]);
      assert Groups(ts, key, amount, ks) == gs + [g];
      SumOfAppend(gs, [g], GroupRevenue);
      SumOfAppend(gs, [g], GroupCount);
    }
  }

  lemma {:induction false} AgentGroupsSums<T>(ts: seq<T>, key: T -> string, amount: T -> real, project: T -> string, ks: seq<string>)
    ensures SumOf(AgentGroups(ts, key, amount, project, ks), AgentRevenue) == SumAmounts(ts, key, amount, ks)
    ensures SumOf(AgentGroups(ts, key, amount, project, ks), AgentCount) == SumCounts(ts, key, ks) as real
    decreases |ks|
  {
    if ks != [] {
      var init := ks[..|ks| - 1];
      AgentGroupsSums(ts, key, amount, project, init);
      var gs := AgentGroups(ts, key, amount, project, init);
      var g := AgentGroupOf(ts, key, amount, project, ks[|ks| - 1]);
      assert AgentGroups(ts, key, amount, project, ks) == gs + [g];
      SumOfAppend(gs, [g], AgentRevenue);
      SumOfAppend(gs, [g], AgentCount);
    }
  }

  /** Attaching shares keeps each industry's revenue and count. */
  lemma {:induction false} WithSharesSums(gs: seq<Group>, total: real)
    ensures SumOf(WithShares(gs, total), ShareRevenue) == SumOf(gs, GroupRevenue)
    ensures SumOf(WithShares(gs, total), ShareCount) == SumOf(gs, GroupCount)
    decreases |gs|
  {
    if gs != [] {
      WithSharesSums(gs[1..], total);
    }
  }

  /** With a positive total the shares add up to the groups' revenue as a
      percentage of it. */
  lemma {:induction false} SharesSum(gs: seq<Group>, total: real)
    requires total > 0.0
    ensures SumOf(WithShares(gs, total), Share) == SumOf(gs, GroupRevenue) / total * 100.0
    decreases |gs|
  {
    if gs != [] {
      SharesSum(gs[1..], total);
      var r, rest := gs[0].revenue, SumOf(gs[1..], GroupRevenue);
      assert r / total * 100.0 + rest / total * 100.0 == (r + rest) / total * 100.0;
    }
  }

  /** Every row's revenue is in exactly one agent's entry: the agent
      ranking's revenues add up to the total revenue, and its counts to the
      number of rows. */
  lemma AgentRankingConserves(es: seq<Enriched>)
    ensures SumOf(StatsOf(es).bdRanking, AgentRevenue) == StatsOf(es).totalRevenue
    ensures SumOf(StatsOf(es).bdRanking, AgentCount) == StatsOf(es).totalCount as real
  {
    var gs := AgentGroups(es, AgentKey, Revenue, Project, Keys(es, AgentKey));
    SortSum(gs, AgentRevenue, AgentRevenue);
    SortSum(gs, AgentRevenue, AgentCount);
    AgentGroupsSums(es, AgentKey, Revenue, Project, Keys(es, AgentKey));
    AmountsConserved(es, AgentKey, Revenue);
    CountsConserved(es, AgentKey);
  }

  /** The industry ranking's revenues add up to the total revenue, and its
      counts to the number of rows. */
  lemma IndustryRankingConserves(es: seq<Enriched>)
    ensures SumOf(StatsOf(es).industryRanking, ShareRevenue) == StatsOf(es).totalRevenue
    ensures SumOf(StatsOf(es).industryRanking, ShareCount) == StatsOf(es).totalCount as real
  {
    var total := Total(es, Revenue);
    var gs := Groups(es, IndustryKey, Revenue, Keys(es, IndustryKey));
    var ss := WithShares(gs, total);
    SortSum(ss, ShareRevenue, ShareRevenue);
    SortSum(ss, ShareRevenue, ShareCount);
    WithSharesSums(gs, total);
    GroupsSums(es, IndustryKey, Revenue, Keys(es, IndustryKey));
    AmountsConserved(es, IndustryKey, Revenue);
    CountsConserved(es, IndustryKey);
  }

  /** Before the cut to 50, the client ranking's revenues add up to the
      total revenue, and its counts to the number of rows. */
  lemma ClientRankingConserves(es: seq<Enriched>)
    ensures SumOf(AllClients(es), GroupRevenue) == StatsOf(es).totalRevenue
    ensures SumOf(AllClients(es), GroupCount) == StatsOf(es).totalCount as real
  {
    var gs := Groups(es, ClientKey, Revenue, Keys(es, ClientKey));
    SortSum(gs, GroupRevenue, GroupRevenue);
    SortSum(gs, GroupRevenue, GroupCount);
    GroupsSums(es, ClientKey, Revenue, Keys(es, ClientKey));
    AmountsConserved(es, ClientKey, Revenue);
    CountsConserved(es, ClientKey);
  }

  /** With a positive total revenue the industry shares add up to 100. */
  lemma SharesAddUpTo100(es: seq<Enriched>)
    requires StatsOf(es).totalRevenue > 0.0
    ensures SumOf(StatsOf(es).industryRanking, Share) == 100.0
  {
    var total := Total(es, Revenue);
    var gs := Groups(es, IndustryKey, Revenue, Keys(es, IndustryKey));
    GroupsSums(es, IndustryKey, Revenue, Keys(es, IndustryKey));
    AmountsConserved(es, IndustryKey, Revenue);
    RankedShares(gs, total);
  }

  lemma RankedShares(gs: seq<Group>, total: real)
    requires total > 0.0 && SumOf(gs, GroupRevenue) == total
    ensures SumOf(SortDesc(WithShares(gs, total), ShareRevenue), Share) == 100.0
  {
    SortSum(WithShares(gs, total), ShareRevenue, Share);
    SharesSum(gs, total);
    WholeIsHundred(total);
  }

  lemma WholeIsHundred(total: real)
    requires total > 0.0
    ensures total / total * 100.0 == 100.0
  {
    assert total / total == 1.0;
  }

  /** Without a positive total revenue every industry's share is 0. */
  lemma SharesZeroWithoutRevenue(es: seq<Enriched>)
    requires StatsOf(es).totalRevenue <= 0.0
    ensures forall i :: 0 <= i < |StatsOf(es).industryRanking| ==> StatsOf(es).industryRanking[i].share == 0.0
  {
    var total := Total(es, Revenue);
    var ss := WithShares(Groups(es, IndustryKey, Revenue, Keys(es, IndustryKey)), total);
    var r := SortDesc(ss, ShareRevenue);
    forall i | 0 <= i < |r|
      ensures r[i].share == 0.0
    {
      assert r[i] in multiset(r);
      assert r[i] in ss;
    }
  }

  /** Every ranking is ordered by revenue, highest first. */
  lemma RankingsDescending(es: seq<Enriched>)
    ensures Descending(StatsOf(es).bdRanking, AgentRevenue)
    ensures Descending(StatsOf(es).industryRanking, ShareRevenue)
    ensures Descending(AllClients(es), GroupRevenue)
    ensures Descending(StatsOf(es).clientRanking, GroupRevenue)
  {
    SortDescending(AgentGroups(es, AgentKey, Revenue, Project, Keys(es, AgentKey)), AgentRevenue);
    SortDescending(WithShares(Groups(es, IndustryKey, Revenue, Keys(es, IndustryKey)), Total(es, Revenue)), ShareRevenue);
    SortDescending(Groups(es, ClientKey, Revenue, Keys(es, ClientKey)), GroupRevenue);
  }

  /** Agents with equal revenue are ranked in the order they first appear
      among the rows. */
  lemma AgentTiesKeepFirstAppearance(es: seq<Enriched>, v: real)
    ensures Ties(StatsOf(es).bdRanking, AgentRevenue, v) == Ties(AgentGroups(es, AgentKey, Revenue, Project, Keys(es, AgentKey)), AgentRevenue, v)
  {
    SortStable(AgentGroups(es, AgentKey, Revenue, Project, Keys(es, AgentKey)), AgentRevenue, v);
  }

  /** The client ranking is the first 50 of the full ranking, and no client
      left out earns more than one kept. */
  lemma ClientTop50(es: seq<Enriched>)
    ensures |StatsOf(es).clientRanking| <= 50
    ensures StatsOf(es).clientRanking == AllClients(es)[..|StatsOf(es).clientRanking|]
    ensures |AllClients(es)| <= 50 ==> StatsOf(es).clientRanking == AllClients(es)
    ensures forall i, j :: 0 <= i < |StatsOf(es).clientRanking| <= j < |AllClients(es)| ==>
              StatsOf(es).clientRanking[i].revenue >= AllClients(es)[j].revenue
  {
    var all := AllClients(es);
    var top := StatsOf(es).clientRanking;
    SortDescending(Groups(es, ClientKey, Revenue, Keys(es, ClientKey)), GroupRevenue);
    forall i, j | 0 <= i < |top| <= j < |all|
      ensures top[i].revenue >= all[j].revenue
    {
      assert top[i] == all[i];
    }
  }

  /** Each agent's entry sums that agent's rows, and every agent among the
      rows has exactly one entry. */
  lemma AgentEntries(es: seq<Enriched>)
    ensures forall i :: 0 <= i < |StatsOf(es).bdRanking| ==>
              StatsOf(es).bdRanking[i] == AgentGroupOf(es, AgentKey, Revenue, Project, StatsOf(es).bdRanking[i].name)
    ensures forall i, j :: 0 <= i < j < |StatsOf(es).bdRanking| ==> StatsOf(es).bdRanking[i].name != StatsOf(es).bdRanking[j].name
    ensures forall i :: 0 <= i < |StatsOf(es).bdRanking| ==> StatsOf(es).bdRanking[i].name in Keys(es, AgentKey)
    ensures forall k :: k in Keys(es, AgentKey) ==> exists i :: 0 <= i < |StatsOf(es).bdRanking| && StatsOf(es).bdRanking[i].name == k
  {
    var ks := Keys(es, AgentKey);
    var gs := AgentGroups(es, AgentKey, Revenue, Project, ks);
    var r := SortDesc(gs, AgentRevenue);
    assert StatsOf(es).bdRanking == r;
    RankedEntries(gs, r, ks, es, AgentKey, Revenue, Project);
  }

  lemma RankedEntries<T>(gs: seq<AgentGroup>, r: seq<AgentGroup>, ks: seq<string>, ts: seq<T>, key: T -> string, amount: T -> real, project: T -> string)
    requires |gs| == |ks| && forall i :: 0 <= i < |gs| ==> gs[i] == AgentGroupOf(ts, key, amount, project, ks[i])
    requires forall i, j :: 0 <= i < j < |ks| ==> ks[i] != ks[j]
    requires multiset(r) == multiset(gs)
    ensures forall i :: 0 <= i < |r| ==> r[i] == AgentGroupOf(ts, key, amount, project, r[i].name)
    ensures forall i, j :: 0 <= i < j < |r| ==> r[i].name != r[j].name
    ensures forall i :: 0 <= i < |r| ==> r[i].name in ks
    ensures forall k :: k in ks ==> exists i :: 0 <= i < |r| && r[i].name == k
  {
    SameElements(gs, r);
    DistinctAfterSort(gs, r, AgentName);
    forall i | 0 <= i < |r|
      ensures r[i] == AgentGroupOf(ts, key, amount, project, r[i].name) && r[i].name in ks
    {
      assert r[i] in gs;
      var p :| 0 <= p < |gs| && gs[p] == r[i];
      assert r[i].name == ks[p];
    }
    forall k | k in ks
      ensures exists i :: 0 <= i < |r| && r[i].name == k
    {
      var p :| 0 <= p < |ks| && ks[p] == k;
      assert gs[p] in r;
      var i :| 0 <= i < |r| && r[i] == gs[p];
      assert r[i].name == k;
    }
  }

  /** No rows: nothing earned, nothing ranked. */
  lemma EmptyStats()
    ensures StatsOf([]) == Stats(0.0, [], [], [], 0)
  {
  }
}
