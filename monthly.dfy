/** The monthly series of the market analysis (src/App.tsx:143-163): one
    pass over the filtered rows whose date parses, filing each row's amount
    under its month (split between Taiwan and overseas, or between new and
    renewing clients), and adding it to one of two summary sides, which also
    track revenue and deal counts without iHerb clients. The months are then
    sorted by `sortKey` and the last six kept. */
module Monthly {
  import opened Optional
  import opened Dates
  import opened Currency
  import opened Enrichment
  import opened Grouping
  import opened Ranking

  /** The two views of the analysis: by region, or by new versus renewing
      clients. */
  datatype ViewMode = ByRegion | ByStatus

  /** An entry of `monthMap`. A region view fills `taiwan` and `overseas`, a
      status view `newClient` and `oldClient`; the other pair stays 0. */
  datatype Bucket = Bucket(
    month: string,
    total: real,
    sortKey: int,
    taiwan: real,
    overseas: real,
    newClient: real,
    oldClient: real)

  /** The running sums of one summary side. */
  datatype Tally = Tally(revenue: real, revenueNoIherb: real, countNoIherb: nat)

  /** A summary side as the memo returns it: its label (`title`), sums
      and average deal. */
  datatype Side = Side(title: string, revenue: real, revenueNoIherb: real, countNoIherb: nat, avgDeal: real)

  datatype Series = Series(monthlyData: seq<Bucket>, s1: Side, s2: Side)

  // ---------------------------------------------------------------------
  // Keyed buckets, generic in the row type

  /** The amount of a row that falls on one side of the split, 0 otherwise. */
  function Part<T>(amount: T -> real, isKey1: T -> bool, key1: bool): T -> real {
    t => if isKey1(t) == key1 then amount(t) else 0.0
  }

  /** The position of the first row filed under `k`. */
  function FirstOf<T>(ts: seq<T>, key: T -> string, k: string): (i: nat)
    requires k in Keys(ts, key)
    ensures i < |ts| && key(ts[i]) == k
    ensures forall j :: 0 <= j < i ==> key(ts[j]) != k
    decreases |ts|
  {
    var init := ts[..|ts| - 1];
    assert forall j :: 0 <= j < |init| ==> ts[j] == init[j];
    if k in Keys(init, key) then FirstOf(init, key, k) else |ts| - 1
  }

  /** The bucket of month `k`: the sum of the month's amounts, the stamp of
      its first row, and the two halves of the split in the view's pair of
      fields. */
  function BucketOf<T>(ts: seq<T>, key: T -> string, amount: T -> real, stamp: T -> int, isKey1: T -> bool, region: bool, k: string): Bucket
    requires k in Keys(ts, key)
  {
    var one := Amount(ts, key, Part(amount, isKey1, true), k);
    var two := Amount(ts, key, Part(amount, isKey1, false), k);
    Bucket(k, Amount(ts, key, amount, k), stamp(ts[FirstOf(ts, key, k)]),
      if region then one else 0.0, if region then two else 0.0,
      if region then 0.0 else one, if region then 0.0 else two)
  }

  /** `Object.values(monthMap)`: the buckets in first-appearance order. */
  function Buckets<T>(ts: seq<T>, key: T -> string, amount: T -> real, stamp: T -> int, isKey1: T -> bool, region: bool, ks: seq<string>): (bs: seq<Bucket>)
    requires forall k :: k in ks ==> k in Keys(ts, key)
    ensures |bs| == |ks| && forall i :: 0 <= i < |ks| ==> bs[i] == BucketOf(ts, key, amount, stamp, isKey1, region, ks[i])
  {
    seq(|ks|, i requires 0 <= i < |ks| => BucketOf(ts, key, amount, stamp, isKey1, region, ks[i]))
  }

  /** `m` and its insertion-ordered key list `ks` hold exactly the buckets of `ts`. */
  ghost predicate BucketsMatch<T>(m: map<string, Bucket>, ks: seq<string>, ts: seq<T>, key: T -> string, amount: T -> real, stamp: T -> int, isKey1: T -> bool, region: bool) {
    ks == Keys(ts, key) &&
    (forall k :: k in m <==> k in ks) &&
    (forall k :: k in m ==> m[k] == BucketOf(ts, key, amount, stamp, isKey1, region, k))
  }

  /** The bucket a new month starts from. */
  function Fresh(k: string, sortKey: int): Bucket {
    Bucket(k, 0.0, sortKey, 0.0, 0.0, 0.0, 0.0)
  }

  /** One row added to its bucket: to the total, and to the half of the
      view's pair the row falls in. */
  function Bump<T>(b: Bucket, t: T, amount: T -> real, isKey1: T -> bool, region: bool): Bucket {
    var a := amount(t);
    var b := b.(total := b.total + a);
    if region then
      if isKey1(t) then b.(taiwan := b.taiwan + a) else b.(overseas := b.overseas + a)
    else
      if isKey1(t) then b.(newClient := b.newClient + a) else b.(oldClient := b.oldClient + a)
  }

  lemma FirstOfSnoc<T>(ts: seq<T>, t: T, key: T -> string, k: string)
    requires k in Keys(ts + [t], key)
    ensures k in Keys(ts, key) ==> FirstOf(ts + [t], key, k) == FirstOf(ts, key, k)
    ensures k !in Keys(ts, key) ==> FirstOf(ts + [t], key, k) == |ts| && key(t) == k
  {
    assert (ts + [t])[..|ts|] == ts;
  }

  /** The row's own bucket, existing or fresh, gains the row. */
  lemma BucketEntryStep<T>(b: Bucket, ts: seq<T>, t: T, key: T -> string, amount: T -> real, stamp: T -> int, isKey1: T -> bool, region: bool)
    requires key(t) in Keys(ts, key) ==> b == BucketOf(ts, key, amount, stamp, isKey1, region, key(t))
    requires key(t) !in Keys(ts, key) ==> b == Fresh(key(t), stamp(t))
    ensures key(t) in Keys(ts + [t], key)
    ensures Bump(b, t, amount, isKey1, region) == BucketOf(ts + [t], key, amount, stamp, isKey1, region, key(t))
  {
    var k := key(t);
    KeysSnoc(ts, t, key);
    FirstOfSnoc(ts, t, key, k);
    AmountSnoc(ts, t, key, amount, k);
    AmountSnoc(ts, t, key, Part(amount, isKey1, true), k);
    AmountSnoc(ts, t, key, Part(amount, isKey1, false), k);
    if k !in Keys(ts, key) {
      AmountOfAbsent(ts, key, amount, k);
      AmountOfAbsent(ts, key, Part(amount, isKey1, true), k);
      AmountOfAbsent(ts, key, Part(amount, isKey1, false), k);
    } else {
      assert (ts + [t])[FirstOf(ts, key, k)] == ts[FirstOf(ts, key, k)];
    }
  }

  /** Every other bucket is unchanged by the row. */
  lemma BucketOtherStep<T>(ts: seq<T>, t: T, key: T -> string, amount: T -> real, stamp: T -> int, isKey1: T -> bool, region: bool, j: string)
    requires j != key(t) && j in Keys(ts, key)
    ensures j in Keys(ts + [t], key)
    ensures BucketOf(ts + [t], key, amount, stamp, isKey1, region, j) == BucketOf(ts, key, amount, stamp, isKey1, region, j)
  {
    KeysSnoc(ts, t, key);
    FirstOfSnoc(ts, t, key, j);
    AmountSnoc(ts, t, key, amount, j);
    AmountSnoc(ts, t, key, Part(amount, isKey1, true), j);
    AmountSnoc(ts, t, key, Part(amount, isKey1, false), j);
    assert (ts + [t])[FirstOf(ts, key, j)] == ts[FirstOf(ts, key, j)];
  }

  /** Adding one row to its bucket keeps the map exact. */
  lemma BucketStep<T>(m: map<string, Bucket>, ks: seq<string>, ts: seq<T>, t: T, key: T -> string, amount: T -> real, stamp: T -> int, isKey1: T -> bool, region: bool)
    requires BucketsMatch(m, ks, ts, key, amount, stamp, isKey1, region)
    ensures BucketsMatch(
              m[key(t) := Bump(if key(t) in m then m[key(t)] else Fresh(key(t), stamp(t)), t, amount, isKey1, region)],
              if key(t) in m then ks else ks + [key(t)],
              ts + [t], key, amount, stamp, isKey1, region)
  {
    var k := key(t);
    var b := if k in m then m[k] else Fresh(k, stamp(t));
    var m' := m[k := Bump(b, t, amount, isKey1, region)];
    var ks' := if k in m then ks else ks + [k];
    KeysSnoc(ts, t, key);
    assert ks' == Keys(ts + [t], key);
    assert forall j :: j in m' <==> j in ks';
    forall j | j in m'
      ensures m'[j] == BucketOf(ts + [t], key, amount, stamp, isKey1, region, j)
    {
      if j == k {
        BucketEntryStep(b, ts, t, key, amount, stamp, isKey1, region);
      } else {
        BucketOtherStep(ts, t, key, amount, stamp, isKey1, region, j);
      }
    }
  }

  /** One row's update of `monthMap`: create the month's bucket with the
      row's stamp if the month is new, add the amount to the total, and add
      it to the half of the view's pair the row falls in. */
  method AddToBucket<T>(m: map<string, Bucket>, ks: seq<string>, t: T,
                        key: T -> string, amount: T -> real, stamp: T -> int, isKey1: T -> bool, region: bool)
    returns (m': map<string, Bucket>, ks': seq<string>)
    ensures m' == m[key(t) := Bump(if key(t) in m then m[key(t)] else Fresh(key(t), stamp(t)), t, amount, isKey1, region)]
    ensures ks' == if key(t) in m then ks else ks + [key(t)]
  {
    var k := key(t);
    var a := amount(t);
    m', ks' := m, ks;
    if k !in m' {
      m' := m'[k := Fresh(k, stamp(t))];
      ks' := ks' + [k];
    }
    var b := m'[k];
    b := b.(total := b.total + a);
    if region {
      if isKey1(t) {
        b := b.(taiwan := b.taiwan + a);
      } else {
        b := b.(overseas := b.overseas + a);
      }
    } else {
      if isKey1(t) {
        b := b.(newClient := b.newClient + a);
      } else {
        b := b.(oldClient := b.oldClient + a);
      }
    }
    m' := m'[k := b];
  }

  /** The map's values in key-creation order are the specified buckets. */
  lemma BucketValues<T>(m: map<string, Bucket>, ks: seq<string>, ts: seq<T>, key: T -> string, amount: T -> real, stamp: T -> int, isKey1: T -> bool, region: bool)
    requires BucketsMatch(m, ks, ts, key, amount, stamp, isKey1, region)
    ensures Values(m, ks) == Buckets(ts, key, amount, stamp, isKey1, region, Keys(ts, key))
  {
  }

  // ---------------------------------------------------------------------
  // Summary sides, generic in the row type

  /** The sums of the side `key1` of the split: revenue over its rows, and
      revenue and count over its rows that are not iHerb clients. */
  function SideTally<T>(ts: seq<T>, amount: T -> real, isKey1: T -> bool, key1: bool, iherb: T -> bool): Tally
    decreases |ts|
  {
    if ts == [] then Tally(0.0, 0.0, 0)
    else
      var s, t := SideTally(ts[..|ts| - 1], amount, isKey1, key1, iherb), ts[|ts| - 1];
      if isKey1(t) != key1 then s
      else if iherb(t) then s.(revenue := s.revenue + amount(t))
      else Tally(s.revenue + amount(t), s.revenueNoIherb + amount(t), s.countNoIherb + 1)
  }

  lemma TallySnoc<T>(ts: seq<T>, t: T, amount: T -> real, isKey1: T -> bool, key1: bool, iherb: T -> bool)
    ensures SideTally(ts + [t], amount, isKey1, key1, iherb) ==
              var s := SideTally(ts, amount, isKey1, key1, iherb);
              if isKey1(t) != key1 then s
              else if iherb(t) then s.(revenue := s.revenue + amount(t))
              else Tally(s.revenue + amount(t), s.revenueNoIherb + amount(t), s.countNoIherb + 1)
  {
    assert (ts + [t])[..|ts|] == ts;
  }

  /** One row's update of the summary: the side the row falls on gains its
      amount, and, unless the row is an iHerb client, its amount and one
      deal in the iHerb-free sums. */
  method AddToSides<T>(s1: Tally, s2: Tally, ghost ts: seq<T>, t: T, amount: T -> real, isKey1: T -> bool, iherb: T -> bool)
    returns (s1': Tally, s2': Tally)
    requires s1 == SideTally(ts, amount, isKey1, true, iherb)
    requires s2 == SideTally(ts, amount, isKey1, false, iherb)
    ensures s1' == SideTally(ts + [t], amount, isKey1, true, iherb)
    ensures s2' == SideTally(ts + [t], amount, isKey1, false, iherb)
  {
    TallySnoc(ts, t, amount, isKey1, true, iherb);
    TallySnoc(ts, t, amount, isKey1, false, iherb);
    var amt := amount(t);
    s1', s2' := s1, s2;
    if isKey1(t) {
      s1' := s1'.(revenue := s1'.revenue + amt);
      if !iherb(t) {
        s1' := s1'.(revenueNoIherb := s1'.revenueNoIherb + amt, countNoIherb := s1'.countNoIherb + 1);
      }
    } else {
      s2' := s2'.(revenue := s2'.revenue + amt);
      if !iherb(t) {
        s2' := s2'.(revenueNoIherb := s2'.revenueNoIherb + amt, countNoIherb := s2'.countNoIherb + 1);
      }
    }
  }

  /** `Math.round(revenueNoIherb / countNoIherb)` without the rounding, or 0
      when the side has no such deals. */
  function AvgDeal(revenueNoIherb: real, countNoIherb: nat): (r: real)
    ensures countNoIherb == 0 ==> r == 0.0
    ensures countNoIherb > 0 ==> r * (countNoIherb as real) == revenueNoIherb
  {
    if countNoIherb > 0 then revenueNoIherb / countNoIherb as real else 0.0
  }

  function MakeSide(title: string, s: Tally): Side {
    Side(title, s.revenue, s.revenueNoIherb, s.countNoIherb, AvgDeal(s.revenueNoIherb, s.countNoIherb))
  }

  // ---------------------------------------------------------------------
  // The series over enriched rows

  /** `new Date(t.date)`, `None` for an Invalid Date. */
  function DateOf(e: Enriched): Option<Date> {
    ParseDate(e.row.date)
  }

  /** `${date.getFullYear()}年${date.getMonth()+1}月`. */
  function MonthOf(e: Enriched): string {
    match DateOf(e)
    case None => ""
    case Some(d) => MonthKey(d)
  }

  /** `date.getTime()`, as an order-preserving stamp. */
  function StampOf(e: Enriched): int {
    match DateOf(e)
    case None => 0
    case Some(d) => Stamp(d)
  }

  /** `isKey1`: the region is Taiwan, or the status is new client. */
  predicate IsKey1(mode: ViewMode, e: Enriched) {
    match mode
    case ByRegion => NormalizeCountry(e.row.country, e.detectedCurrency) == Taiwan
    case ByStatus => e.row.status == NewClient
  }

  function Key1(mode: ViewMode): Enriched -> bool {
    e => IsKey1(mode, e)
  }

  /** `(t.brandName || t.projectName || '').toLowerCase().includes('iherb')`. */
  predicate IherbRow(e: Enriched) {
    IsIherb(if e.row.brandName != "" then e.row.brandName else e.row.projectName)
  }

  function Label1(mode: ViewMode): string {
    if mode == ByRegion then RegionLabel(Taiwan) else NewClient
  }

  function Label2(mode: ViewMode): string {
    if mode == ByRegion then RegionLabel(Overseas) else Renewal
  }

  /** The rows of `ts` that satisfy `p`, in order. */
  function Where<T>(ts: seq<T>, p: T -> bool): (vs: seq<T>)
    ensures |vs| <= |ts|
    ensures forall i :: 0 <= i < |vs| ==> p(vs[i])
    decreases |ts|
  {
    if ts == [] then []
    else
      var t := ts[|ts| - 1];
      Where(ts[..|ts| - 1], p) + (if p(t) then [t] else [])
  }

  lemma WhereSnoc<T>(ts: seq<T>, t: T, p: T -> bool)
    ensures Where(ts + [t], p) == Where(ts, p) + (if p(t) then [t] else [])
  {
    assert (ts + [t])[..|ts|] == ts;
  }

  predicate HasDate(e: Enriched) {
    DateOf(e).Some?
  }

  /** The rows the pass does not skip: those whose date parses. */
  function Parsed(es: seq<Enriched>): (vs: seq<Enriched>)
    ensures forall i :: 0 <= i < |vs| ==> DateOf(vs[i]).Some?
  {
    Where(es, HasDate)
  }

  /** The buckets ordered by `sortKey`, ascending, is the stable sort by
      the negated key, descending. */
  function Later(b: Bucket): real {
    -(b.sortKey as real)
  }

  function MonthName(b: Bucket): string { b.month }

  /** All buckets of the rows, in first-appearance order. */
  function AllBuckets(es: seq<Enriched>, mode: ViewMode): seq<Bucket> {
    var vs := Parsed(es);
    Buckets(vs, MonthOf, Revenue, StampOf, Key1(mode), mode == ByRegion, Keys(vs, MonthOf))
  }

  /** `sort((a, b) => a.sortKey - b.sortKey).slice(-6)`: the months sorted
      by `sortKey`, ascending (the stable sort by the negated key,
      descending), then the last six. */
  function Recent(es: seq<Enriched>, mode: ViewMode): seq<Bucket> {
    TakeLast(SortDesc(AllBuckets(es, mode), Later), 6)
  }

  /** What the memo computes for the rows `es` in view `mode`. */
  function SeriesOf(es: seq<Enriched>, mode: ViewMode): Series {
    var vs := Parsed(es);
    Series(
      Recent(es, mode),
      MakeSide(Label1(mode), SideTally(vs, Revenue, Key1(mode), true, IherbRow)),
      MakeSide(Label2(mode), SideTally(vs, Revenue, Key1(mode), false, IherbRow)))
  }

  /** The memo's state after the rows `vs`: the month buckets and the two
      summary sides. */
  ghost predicate Summarises<T>(monthMap: map<string, Bucket>, monthKeys: seq<string>, s1: Tally, s2: Tally, vs: seq<T>,
                                key: T -> string, amount: T -> real, stamp: T -> int, isKey1: T -> bool, region: bool, iherb: T -> bool) {
    BucketsMatch(monthMap, monthKeys, vs, key, amount, stamp, isKey1, region) &&
    s1 == SideTally(vs, amount, isKey1, true, iherb) &&
    s2 == SideTally(vs, amount, isKey1, false, iherb)
  }

  /** One kept row: into its month's bucket and onto its summary side. */
  method AddRow<T>(monthMap: map<string, Bucket>, monthKeys: seq<string>, s1: Tally, s2: Tally, ghost vs: seq<T>, t: T,
                   key: T -> string, amount: T -> real, stamp: T -> int, isKey1: T -> bool, region: bool, iherb: T -> bool)
    returns (monthMap': map<string, Bucket>, monthKeys': seq<string>, s1': Tally, s2': Tally)
    requires Summarises(monthMap, monthKeys, s1, s2, vs, key, amount, stamp, isKey1, region, iherb)
    ensures Summarises(monthMap', monthKeys', s1', s2', vs + [t], key, amount, stamp, isKey1, region, iherb)
  {
    BucketStep(monthMap, monthKeys, vs, t, key, amount, stamp, isKey1, region);
    monthMap', monthKeys' := AddToBucket(monthMap, monthKeys, t, key, amount, stamp, isKey1, region);
    s1', s2' := AddToSides(s1, s2, vs, t, amount, isKey1, iherb);
  }

  /** The memo's `forEach`: rows that are not `valid` are skipped; every
      other row goes to its month's bucket and to its summary side. */
  method Accumulate<T>(ts: seq<T>, valid: T -> bool, key: T -> string, amount: T -> real, stamp: T -> int,
                       isKey1: T -> bool, region: bool, iherb: T -> bool)
    returns (monthMap: map<string, Bucket>, monthKeys: seq<string>, s1: Tally, s2: Tally)
    ensures Summarises(monthMap, monthKeys, s1, s2, Where(ts, valid), key, amount, stamp, isKey1, region, iherb)
  {
    monthMap, monthKeys := map[], [];
    s1, s2 := Tally(0.0, 0.0, 0), Tally(0.0, 0.0, 0);
    ghost var vs: seq<T> := [];
    for i := 0 to |ts|
      invariant vs == Where(ts[..i], valid)
      invariant Summarises(monthMap, monthKeys, s1, s2, vs, key, amount, stamp, isKey1, region, iherb)
    {
      var t := ts[i];
      assert ts[..i + 1] == ts[..i] + [t];
      WhereSnoc(ts[..i], t, valid);
      if valid(t) {
        monthMap, monthKeys, s1, s2 := AddRow(monthMap, monthKeys, s1, s2, vs, t, key, amount, stamp, isKey1, region, iherb);
        vs := vs + [t];
      }
    }
    assert ts[..|ts|] == ts;
  }

  /** The `monthMap` memo: the accumulation pass, then the sort by
      `sortKey`, the cut to the last six months and the average deals. */
  method MonthlySeries(es: seq<Enriched>, mode: ViewMode) returns (r: Series)
    ensures r == SeriesOf(es, mode)
  {
    var monthMap, monthKeys, s1, s2 := Accumulate(es, HasDate, MonthOf, Revenue, StampOf, Key1(mode), mode == ByRegion, IherbRow);
    BucketValues(monthMap, monthKeys, Parsed(es), MonthOf, Revenue, StampOf, Key1(mode), mode == ByRegion);
    var sorted := SortDesc(Values(monthMap, monthKeys), Later);
    r := Series(TakeLast(sorted, 6), MakeSide(Label1(mode), s1), MakeSide(Label2(mode), s2));
  }

  // ---------------------------------------------------------------------
  // Properties

  /** The two halves of the split add up to the whole. */
  lemma {:induction false} SplitAmount<T>(ts: seq<T>, key: T -> string, amount: T -> real, isKey1: T -> bool, k: string)
    ensures Amount(ts, key, Part(amount, isKey1, true), k) + Amount(ts, key, Part(amount, isKey1, false), k) == Amount(ts, key, amount, k)
    decreases |ts|
  {
    if ts != [] {
      SplitAmount(ts[..|ts| - 1], key, amount, isKey1, k);
    }
  }

  /** Every bucket's total is the sum of the view's two split values, and
      the other view's pair stays 0. */
  lemma BucketSplits<T>(ts: seq<T>, key: T -> string, amount: T -> real, stamp: T -> int, isKey1: T -> bool, region: bool, k: string)
    requires k in Keys(ts, key)
    ensures var b := BucketOf(ts, key, amount, stamp, isKey1, region, k);
            if region then b.total == b.taiwan + b.overseas && b.newClient == 0.0 && b.oldClient == 0.0
            else b.total == b.newClient + b.oldClient && b.taiwan == 0.0 && b.overseas == 0.0
  {
    SplitAmount(ts, key, amount, isKey1, k);
  }

  /** A side's revenue is the total of the amounts on that side. */
  lemma {:induction false} SideRevenue<T>(ts: seq<T>, amount: T -> real, isKey1: T -> bool, key1: bool, iherb: T -> bool)
    ensures SideTally(ts, amount, isKey1, key1, iherb).revenue == Total(ts, Part(amount, isKey1, key1))
    ensures SideTally(ts, amount, isKey1, key1, iherb).revenueNoIherb <= SideTally(ts, amount, isKey1, key1, iherb).revenue ||
            exists i :: 0 <= i < |ts| && amount(ts[i]) < 0.0
    decreases |ts|
  {
    if ts != [] {
      var init := ts[..|ts| - 1];
      SideRevenue(init, amount, isKey1, key1, iherb);
      if exists i :: 0 <= i < |init| && amount(init[i]) < 0.0 {
        var i :| 0 <= i < |init| && amount(init[i]) < 0.0;
        assert ts[i] == init[i];
      }
    }
  }

  /** The two sides share the total revenue of the kept rows. */
  lemma {:induction false} SidesSplitTotal<T>(ts: seq<T>, amount: T -> real, isKey1: T -> bool, iherb: T -> bool)
    ensures SideTally(ts, amount, isKey1, true, iherb).revenue + SideTally(ts, amount, isKey1, false, iherb).revenue == Total(ts, amount)
    decreases |ts|
  {
    if ts != [] {
      SidesSplitTotal(ts[..|ts| - 1], amount, isKey1, iherb);
    }
  }

  function BucketTotal(b: Bucket): real { b.total }
  function TaiwanValue(b: Bucket): real { b.taiwan }
  function OverseasValue(b: Bucket): real { b.overseas }
  function NewClientValue(b: Bucket): real { b.newClient }
  function OldClientValue(b: Bucket): real { b.oldClient }

  /** Summing a field over the buckets sums the matching amount over the
      months. */
  lemma {:induction false} FieldSums<T>(bs: seq<Bucket>, field: Bucket -> real, ts: seq<T>, key: T -> string, amount: T -> real, ks: seq<string>)
    requires |bs| == |ks| && forall i :: 0 <= i < |ks| ==> field(bs[i]) == Amount(ts, key, amount, ks[i])
    ensures SumOf(bs, field) == SumAmounts(ts, key, amount, ks)
    decreases |ks|
  {
    if ks != [] {
      var n := |ks| - 1;
      FieldSums(bs[..n], field, ts, key, amount, ks[..n]);
      assert bs == bs[..n] + [bs[n]];
      SumOfAppend(bs[..n], [bs[n]], field);
    }
  }

  lemma BucketsSums<T>(ts: seq<T>, key: T -> string, amount: T -> real, stamp: T -> int, isKey1: T -> bool, region: bool, ks: seq<string>)
    requires forall k :: k in ks ==> k in Keys(ts, key)
    ensures SumOf(Buckets(ts, key, amount, stamp, isKey1, region, ks), BucketTotal) == SumAmounts(ts, key, amount, ks)
    ensures region ==> SumOf(Buckets(ts, key, amount, stamp, isKey1, region, ks), TaiwanValue) == SumAmounts(ts, key, Part(amount, isKey1, true), ks)
    ensures region ==> SumOf(Buckets(ts, key, amount, stamp, isKey1, region, ks), OverseasValue) == SumAmounts(ts, key, Part(amount, isKey1, false), ks)
    ensures !region ==> SumOf(Buckets(ts, key, amount, stamp, isKey1, region, ks), NewClientValue) == SumAmounts(ts, key, Part(amount, isKey1, true), ks)
    ensures !region ==> SumOf(Buckets(ts, key, amount, stamp, isKey1, region, ks), OldClientValue) == SumAmounts(ts, key, Part(amount, isKey1, false), ks)
  {
    var bs := Buckets(ts, key, amount, stamp, isKey1, region, ks);
    FieldSums(bs, BucketTotal, ts, key, amount, ks);
    if region {
      FieldSums(bs, TaiwanValue, ts, key, Part(amount, isKey1, true), ks);
      FieldSums(bs, OverseasValue, ts, key, Part(amount, isKey1, false), ks);
    } else {
      FieldSums(bs, NewClientValue, ts, key, Part(amount, isKey1, true), ks);
      FieldSums(bs, OldClientValue, ts, key, Part(amount, isKey1, false), ks);
    }
  }

  /** Conservation across the series: the months' totals add up to the two
      sides' revenues together, and each side's revenue is the sum of the
      months' matching split value (Taiwan and overseas, or new and renewing
      clients). */
  lemma SidesMatchBuckets(es: seq<Enriched>, mode: ViewMode)
    ensures SumOf(AllBuckets(es, mode), BucketTotal) == SeriesOf(es, mode).s1.revenue + SeriesOf(es, mode).s2.revenue
    ensures mode == ByRegion ==> SumOf(AllBuckets(es, mode), TaiwanValue) == SeriesOf(es, mode).s1.revenue
    ensures mode == ByRegion ==> SumOf(AllBuckets(es, mode), OverseasValue) == SeriesOf(es, mode).s2.revenue
    ensures mode == ByStatus ==> SumOf(AllBuckets(es, mode), NewClientValue) == SeriesOf(es, mode).s1.revenue
    ensures mode == ByStatus ==> SumOf(AllBuckets(es, mode), OldClientValue) == SeriesOf(es, mode).s2.revenue
  {
    var vs := Parsed(es);
    var ks := Keys(vs, MonthOf);
    BucketsSums(vs, MonthOf, Revenue, StampOf, Key1(mode), mode == ByRegion, ks);
    AmountsConserved(vs, MonthOf, Revenue);
    AmountsConserved(vs, MonthOf, Part(Revenue, Key1(mode), true));
    AmountsConserved(vs, MonthOf, Part(Revenue, Key1(mode), false));
    SidesSplitTotal(vs, Revenue, Key1(mode), IherbRow);
    SideRevenue(vs, Revenue, Key1(mode), true, IherbRow);
    SideRevenue(vs, Revenue, Key1(mode), false, IherbRow);
  }

  /** Non-decreasing by `sortKey`. */
  predicate Ascending(bs: seq<Bucket>) {
    forall i, j :: 0 <= i < j < |bs| ==> bs[i].sortKey <= bs[j].sortKey
  }

  /** The months sorted by `sortKey`, before the cut. */
  function SortedBuckets(es: seq<Enriched>, mode: ViewMode): (s: seq<Bucket>)
    ensures Recent(es, mode) == TakeLast(s, 6)
  {
    SortDesc(AllBuckets(es, mode), Later)
  }

  lemma SortedAscending(es: seq<Enriched>, mode: ViewMode)
    ensures Ascending(SortedBuckets(es, mode))
  {
    var s := SortedBuckets(es, mode);
    SortDescending(AllBuckets(es, mode), Later);
    forall i, j | 0 <= i < j < |s|
      ensures s[i].sortKey <= s[j].sortKey
    {
      assert Later(s[i]) >= Later(s[j]);
    }
  }

  /** The last `n` of an ascending sequence are ascending. */
  lemma SuffixAscending(s: seq<Bucket>, n: nat)
    requires Ascending(s)
    ensures Ascending(TakeLast(s, n))
  {
    var kept := TakeLast(s, n);
    forall i, j | 0 <= i < j < |kept|
      ensures kept[i].sortKey <= kept[j].sortKey
    {
      assert kept[i] == s[|s| - |kept| + i] && kept[j] == s[|s| - |kept| + j];
    }
  }

  /** The series holds at most six months, ascending by `sortKey`: the last
      six of the sorted months, or all of them when there are fewer. */
  lemma RecentMonths(es: seq<Enriched>, mode: ViewMode)
    ensures |Recent(es, mode)| <= 6
    ensures Ascending(Recent(es, mode))
    ensures Recent(es, mode) == SortedBuckets(es, mode)[|SortedBuckets(es, mode)| - |Recent(es, mode)|..]
    ensures |SortedBuckets(es, mode)| <= 6 ==> Recent(es, mode) == SortedBuckets(es, mode)
  {
    SortedAscending(es, mode);
    SuffixAscending(SortedBuckets(es, mode), 6);
  }

  /** A bucket built from dated rows: its key is the month key and its
      `sortKey` the stamp of one date in that month. */
  ghost predicate Dated(b: Bucket) {
    exists x :: Valid(x) && b.month == MonthKey(x) && b.sortKey == Stamp(x)
  }

  lemma BucketsDated(es: seq<Enriched>, mode: ViewMode)
    ensures forall i :: 0 <= i < |AllBuckets(es, mode)| ==> Dated(AllBuckets(es, mode)[i])
    ensures DistinctNames(AllBuckets(es, mode), MonthName)
  {
    var vs := Parsed(es);
    var ks := Keys(vs, MonthOf);
    var bs := AllBuckets(es, mode);
    forall i | 0 <= i < |bs|
      ensures Dated(bs[i])
    {
      var f := FirstOf(vs, MonthOf, ks[i]);
      var x := DateOf(vs[f]).value;
      assert bs[i].month == MonthKey(x) && bs[i].sortKey == Stamp(x);
    }
  }

  /** The series keeps the latest months: every month the cut to six drops
      is earlier (smaller `sortKey / 100`, that is `year * 100 + month`)
      than every month it keeps. */
  lemma LatestMonths(es: seq<Enriched>, mode: ViewMode)
    ensures forall i, j :: 0 <= i < |SortedBuckets(es, mode)| - |Recent(es, mode)| && 0 <= j < |Recent(es, mode)| ==>
              SortedBuckets(es, mode)[i].sortKey / 100 < Recent(es, mode)[j].sortKey / 100
  {
    var all := AllBuckets(es, mode);
    var s := SortedBuckets(es, mode);
    var r := Recent(es, mode);
    RecentMonths(es, mode);
    SortedAscending(es, mode);
    BucketsDated(es, mode);
    SameElements(all, s);
    DistinctAfterSort(all, s, MonthName);
    forall i, j | 0 <= i < |s| - |r| && 0 <= j < |r|
      ensures s[i].sortKey / 100 < r[j].sortKey / 100
    {
      var p := |s| - |r| + j;
      assert r[j] == s[p] && i < p;
      SortedDated(all, s, i);
      SortedDated(all, s, p);
      var xa :| Valid(xa) && s[i].month == MonthKey(xa) && s[i].sortKey == Stamp(xa);
      var xb :| Valid(xb) && s[p].month == MonthKey(xb) && s[p].sortKey == Stamp(xb);
      assert MonthName(s[i]) != MonthName(s[p]);
      StampsOrderMonths(xa, xb);
    }
  }

  lemma SortedDated(all: seq<Bucket>, s: seq<Bucket>, i: nat)
    requires forall k :: 0 <= k < |all| ==> Dated(all[k])
    requires forall x :: x in s <==> x in all
    requires i < |s|
    ensures Dated(s[i])
  {
    assert s[i] in all;
  }

  /** The split a bucket shows: its total is the sum of the view's two
      values, and the other view's pair is 0. */
  predicate SplitsTotal(b: Bucket, mode: ViewMode) {
    if mode == ByRegion then b.total == b.taiwan + b.overseas && b.newClient == 0.0 && b.oldClient == 0.0
    else b.total == b.newClient + b.oldClient && b.taiwan == 0.0 && b.overseas == 0.0
  }

  /** Every month of the series splits its total between the view's two
      values. */
  lemma MonthsSplit(es: seq<Enriched>, mode: ViewMode)
    ensures forall i :: 0 <= i < |Recent(es, mode)| ==> SplitsTotal(Recent(es, mode)[i], mode)
  {
    var vs := Parsed(es);
    var ks := Keys(vs, MonthOf);
    var all := AllBuckets(es, mode);
    var s := SortedBuckets(es, mode);
    var r := Recent(es, mode);
    forall k | 0 <= k < |all|
      ensures SplitsTotal(all[k], mode)
    {
      BucketSplits(vs, MonthOf, Revenue, StampOf, Key1(mode), mode == ByRegion, ks[k]);
    }
    SameElements(all, s);
    forall i | 0 <= i < |r|
      ensures SplitsTotal(r[i], mode)
    {
      assert r[i] == s[|s| - |r| + i];
      assert r[i] in all;
    }
  }
}
