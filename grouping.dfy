/** Keyed grouping as the dashboard's `forEach` loops do it with a plain
    object (src/App.tsx:292-299, 331-352, 144-160): each row is filed under a
    key, a key is created the first time it is seen (so `Object.values`
    lists groups in first-appearance order), and a group accumulates the
    count and the sum of an amount over its rows. These are the
    specification functions the loops are proved against, with the
    conservation laws they obey. */
module Grouping {

  /** The distinct keys of the rows, in the order they first appear. */
  function Keys<T>(ts: seq<T>, key: T -> string): (ks: seq<string>)
    ensures forall i, j :: 0 <= i < j < |ks| ==> ks[i] != ks[j]
    ensures forall k :: k in ks <==> exists i :: 0 <= i < |ts| && key(ts[i]) == k
    decreases |ts|
  {
    if ts == [] then []
    else
      var init := ts[..|ts| - 1];
      var ks := Keys(init, key);
      var k := key(ts[|ts| - 1]);
      assert forall j :: 0 <= j < |init| ==> ts[j] == init[j];
      if k in ks then ks else ks + [k]
  }

  /** The number of rows filed under `k`. */
  function Count<T>(ts: seq<T>, key: T -> string, k: string): (n: nat)
    ensures n <= |ts|
    ensures n > 0 <==> exists i :: 0 <= i < |ts| && key(ts[i]) == k
    decreases |ts|
  {
    if ts == [] then 0
    else
      var init := ts[..|ts| - 1];
      assert forall j :: 0 <= j < |init| ==> ts[j] == init[j];
      Count(init, key, k) + (if key(ts[|ts| - 1]) == k then 1 else 0)
  }

  /** The sum of `amount` over the rows filed under `k`. */
  function Amount<T>(ts: seq<T>, key: T -> string, amount: T -> real, k: string): real
    decreases |ts|
  {
    if ts == [] then 0.0
    else Amount(ts[..|ts| - 1], key, amount, k) + (if key(ts[|ts| - 1]) == k then amount(ts[|ts| - 1]) else 0.0)
  }

  /** The sum of `amount` over all rows. */
  function Total<T>(ts: seq<T>, amount: T -> real): real
    decreases |ts|
  {
    if ts == [] then 0.0 else Total(ts[..|ts| - 1], amount) + amount(ts[|ts| - 1])
  }

  /** The counts of the groups `ks`, added up. */
  function SumCounts<T>(ts: seq<T>, key: T -> string, ks: seq<string>): nat
    decreases |ks|
  {
    if ks == [] then 0 else SumCounts(ts, key, ks[..|ks| - 1]) + Count(ts, key, ks[|ks| - 1])
  }

  /** The amounts of the groups `ks`, added up. */
  function SumAmounts<T>(ts: seq<T>, key: T -> string, amount: T -> real, ks: seq<string>): real
    decreases |ks|
  {
    if ks == [] then 0.0 else SumAmounts(ts, key, amount, ks[..|ks| - 1]) + Amount(ts, key, amount, ks[|ks| - 1])
  }

  /** Every row is counted in exactly one group: the group counts add up to
      the number of rows. */
  lemma {:induction false} CountsConserved<T>(ts: seq<T>, key: T -> string)
    ensures SumCounts(ts, key, Keys(ts, key)) == |ts|
    decreases |ts|
  {
    if ts != [] {
      var init, t := ts[..|ts| - 1], ts[|ts| - 1];
      CountsConserved(init, key);
      var ks := Keys(init, key);
      SumCountsAddRow(init, t, key, ks);
      assert ts == init + [t];
      if key(t) !in ks {
        assert Count(init, key, key(t)) == 0;
        SumCountsSnoc(ts, key, ks, key(t));
      }
    }
  }

  lemma SumCountsSnoc<T>(ts: seq<T>, key: T -> string, ks: seq<string>, k: string)
    ensures SumCounts(ts, key, ks + [k]) == SumCounts(ts, key, ks) + Count(ts, key, k)
  {
    assert (ks + [k])[..|ks|] == ks;
  }

  /** Adding one row adds one to the total count of a list of distinct
      groups when the row's key is among them, and nothing otherwise. */
  lemma {:induction false} SumCountsAddRow<T>(ts: seq<T>, t: T, key: T -> string, ks: seq<string>)
    requires forall i, j :: 0 <= i < j < |ks| ==> ks[i] != ks[j]
    ensures SumCounts(ts + [t], key, ks) == SumCounts(ts, key, ks) + (if key(t) in ks then 1 else 0)
    decreases |ks|
  {
    assert (ts + [t])[..|ts|] == ts;
    if ks != [] {
      var init := ks[..|ks| - 1];
      SumCountsAddRow(ts, t, key, init);
      assert key(t) in ks <==> key(t) in init || key(t) == ks[|ks| - 1];
      assert key(t) in init ==> key(t) != ks[|ks| - 1];
    }
  }

  /** Every row's amount lands in exactly one group: the group amounts add
      up to the total. */
  lemma {:induction false} AmountsConserved<T>(ts: seq<T>, key: T -> string, amount: T -> real)
    ensures SumAmounts(ts, key, amount, Keys(ts, key)) == Total(ts, amount)
    decreases |ts|
  {
    if ts != [] {
      var init, t := ts[..|ts| - 1], ts[|ts| - 1];
      AmountsConserved(init, key, amount);
      var ks := Keys(init, key);
      SumAmountsAddRow(init, t, key, amount, ks);
      assert ts == init + [t];
      if key(t) !in ks {
        AmountOfAbsent(init, key, amount, key(t));
        assert SumAmounts(ts, key, amount, ks + [key(t)]) == SumAmounts(ts, key, amount, ks) + Amount(ts, key, amount, key(t)) by {
          assert (ks + [key(t)])[..|ks|] == ks;
        }
      }
    }
  }

  /** Adding one row adds its amount to the total of a list of distinct
      groups when the row's key is among them, and nothing otherwise. */
  lemma {:induction false} SumAmountsAddRow<T>(ts: seq<T>, t: T, key: T -> string, amount: T -> real, ks: seq<string>)
    requires forall i, j :: 0 <= i < j < |ks| ==> ks[i] != ks[j]
    ensures SumAmounts(ts + [t], key, amount, ks) == SumAmounts(ts, key, amount, ks) + (if key(t) in ks then amount(t) else 0.0)
    decreases |ks|
  {
    assert (ts + [t])[..|ts|] == ts;
    if ks != [] {
      var init := ks[..|ks| - 1];
      SumAmountsAddRow(ts, t, key, amount, init);
      assert key(t) in ks <==> key(t) in init || key(t) == ks[|ks| - 1];
      assert key(t) in init ==> key(t) != ks[|ks| - 1];
    }
  }

  /** A key no row carries has amount 0. */
  lemma {:induction false} AmountOfAbsent<T>(ts: seq<T>, key: T -> string, amount: T -> real, k: string)
    requires forall i :: 0 <= i < |ts| ==> key(ts[i]) != k
    ensures Amount(ts, key, amount, k) == 0.0
    decreases |ts|
  {
    if ts != [] {
      AmountOfAbsent(ts[..|ts| - 1], key, amount, k);
    }
  }

  /** Extending the rows by one extends the keys at most by that row's key. */
  lemma KeysSnoc<T>(ts: seq<T>, t: T, key: T -> string)
    ensures Keys(ts + [t], key) == if key(t) in Keys(ts, key) then Keys(ts, key) else Keys(ts, key) + [key(t)]
  {
    assert (ts + [t])[..|ts|] == ts;
  }

  /** `Object.values(m)`: the entries in the order their keys were created. */
  function Values<G>(m: map<string, G>, ks: seq<string>): (vs: seq<G>)
    requires forall k :: k in ks ==> k in m
    ensures |vs| == |ks| && forall i :: 0 <= i < |ks| ==> vs[i] == m[ks[i]]
  {
    seq(|ks|, i requires 0 <= i < |ks| => m[ks[i]])
  }

  /** Extending the rows by one updates only the group of that row's key. */
  lemma CountSnoc<T>(ts: seq<T>, t: T, key: T -> string, k: string)
    ensures Count(ts + [t], key, k) == Count(ts, key, k) + (if key(t) == k then 1 else 0)
  {
    assert (ts + [t])[..|ts|] == ts;
  }

  lemma AmountSnoc<T>(ts: seq<T>, t: T, key: T -> string, amount: T -> real, k: string)
    ensures Amount(ts + [t], key, amount, k) == Amount(ts, key, amount, k) + (if key(t) == k then amount(t) else 0.0)
  {
    assert (ts + [t])[..|ts|] == ts;
  }

  lemma TotalSnoc<T>(ts: seq<T>, t: T, amount: T -> real)
    ensures Total(ts + [t], amount) == Total(ts, amount) + amount(t)
  {
    assert (ts + [t])[..|ts|] == ts;
  }

  /** A row's group has at least two rows exactly when some other row
      shares its key. */
  lemma {:induction false} CountAtLeastTwo<T>(ts: seq<T>, key: T -> string, i: nat)
    requires i < |ts|
    ensures Count(ts, key, key(ts[i])) >= 2 <==> exists j :: 0 <= j < |ts| && j != i && key(ts[j]) == key(ts[i])
    decreases |ts|
  {
    var n := |ts| - 1;
    var init, k := ts[..n], key(ts[i]);
    assert ts == init + [ts[n]];
    CountSnoc(init, ts[n], key, k);
    if i == n {
      if Count(init, key, k) > 0 {
        var j :| 0 <= j < |init| && key(init[j]) == k;
        assert key(ts[j]) == k;
      }
    } else {
      CountAtLeastTwo(init, key, i);
      assert key(init[i]) == k;
      if key(ts[n]) != k && exists j :: 0 <= j < |ts| && j != i && key(ts[j]) == k {
        var j :| 0 <= j < |ts| && j != i && key(ts[j]) == k;
        assert j < n && key(init[j]) == k;
      }
    }
  }

  /** `m` holds exactly the group counts of `ts`: an entry per key, holding
      the number of rows with that key. */
  ghost predicate Tallies<T>(m: map<string, nat>, ts: seq<T>, key: T -> string) {
    (forall k :: k in m <==> k in Keys(ts, key)) &&
    (forall k :: k in m ==> m[k] == Count(ts, key, k))
  }

  /** `m[key(t)] = (m[key(t)] || 0) + 1` keeps the tallies exact. */
  lemma TallyStep<T>(m: map<string, nat>, ts: seq<T>, t: T, key: T -> string)
    requires Tallies(m, ts, key)
    ensures Tallies(m[key(t) := (if key(t) in m then m[key(t)] else 0) + 1], ts + [t], key)
  {
    var m' := m[key(t) := (if key(t) in m then m[key(t)] else 0) + 1];
    KeysSnoc(ts, t, key);
    forall k
      ensures k in m' <==> k in Keys(ts + [t], key)
      ensures k in m' ==> m'[k] == Count(ts + [t], key, k)
    {
      CountSnoc(ts, t, key, k);
    }
  }
}
