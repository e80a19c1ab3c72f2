/** The filter choices the dashboard offers (src/App.tsx:279-288): one pass
    over the mapped rows collects the distinct non-empty years (the first
    four characters of each non-empty date), agents, statuses and industries
    into insertion-ordered sets; each set is then sorted by JavaScript's
    default string order, and the years are reversed so the latest comes
    first. */
module Options {
  import opened Dates
  import opened Rows
  import opened Ranking

  // ---------------------------------------------------------------------
  // String order

  /** The default `sort()` order on strings: lexicographic by character,
      a proper prefix first. */
  predicate Lt(a: string, b: string)
    decreases |a|
  {
    if a == [] then b != []
    else if b == [] then false
    else if a[0] != b[0] then a[0] < b[0]
    else Lt(a[1..], b[1..])
  }

  lemma {:induction false} LtIrreflexive(a: string)
    ensures !Lt(a, a)
    decreases |a|
  {
    if a != [] {
      LtIrreflexive(a[1..]);
    }
  }

  lemma {:induction false} LtAsymmetric(a: string, b: string)
    requires Lt(a, b)
    ensures !Lt(b, a)
    decreases |a|
  {
    if a != [] && b != [] && a[0] == b[0] {
      LtAsymmetric(a[1..], b[1..]);
    }
  }

  lemma {:induction false} LtTotal(a: string, b: string)
    requires a != b
    ensures Lt(a, b) || Lt(b, a)
    decreases |a|
  {
    if a != [] && b != [] && a[0] == b[0] {
      assert a == [a[0]] + a[1..] && b == [b[0]] + b[1..];
      LtTotal(a[1..], b[1..]);
    }
  }

  lemma {:induction false} LtTransitive(a: string, b: string, c: string)
    requires Lt(a, b) && Lt(b, c)
    ensures Lt(a, c)
    decreases |a|
  {
    if a != [] && a[0] == b[0] && b[0] == c[0] {
      LtTransitive(a[1..], b[1..], c[1..]);
    }
  }

  /** `a` is not after `b`. */
  predicate Le(a: string, b: string) {
    !Lt(b, a)
  }

  lemma LeTransitive(a: string, b: string, c: string)
    requires Le(a, b) && Le(b, c)
    ensures Le(a, c)
  {
    if a != b && b != c {
      LtTotal(a, b);
      LtTotal(b, c);
      LtTransitive(a, b, c);
      LtAsymmetric(a, c);
    }
  }

  // ---------------------------------------------------------------------
  // Sorting

  /** Places `x` before the first element that is not before it. */
  function InsertText(x: string, s: seq<string>): (r: seq<string>)
    ensures multiset(r) == multiset(s) + multiset{x}
    ensures |r| == |s| + 1
  {
    if s == [] || Le(x, s[0]) then [x] + s
    else
      assert s == [s[0]] + s[1..];
      [s[0]] + InsertText(x, s[1..])
  }

  /** `Array.prototype.sort()` on strings: a stable insertion sort. */
  function SortText(s: seq<string>): (r: seq<string>)
    ensures multiset(r) == multiset(s)
    ensures |r| == |s|
  {
    if s == [] then []
    else
      assert s == [s[0]] + s[1..];
      InsertText(s[0], SortText(s[1..]))
  }

  predicate Ascending(s: seq<string>) {
    forall i, j :: 0 <= i < j < |s| ==> Le(s[i], s[j])
  }

  predicate StrictlyAscending(s: seq<string>) {
    forall i, j :: 0 <= i < j < |s| ==> Lt(s[i], s[j])
  }

  predicate Distinct(s: seq<string>) {
    DistinctNames(s, Same)
  }

  lemma {:induction false} InsertAscending(x: string, s: seq<string>)
    requires Ascending(s)
    ensures Ascending(InsertText(x, s))
    decreases |s|
  {
    if s == [] || Le(x, s[0]) {
      var r := [x] + s;
      forall i, j | 0 <= i < j < |r|
        ensures Le(r[i], r[j])
      {
        if i == 0 && j > 1 {
          LeTransitive(x, s[0], s[j - 1]);
        }
      }
    } else {
      InsertAscending(x, s[1..]);
      var r := InsertText(x, s[1..]);
      LtAsymmetric(s[0], x);
      forall j | 0 <= j < |r|
        ensures Le(s[0], r[j])
      {
        assert r[j] in multiset(r);
        if r[j] != x {
          assert r[j] in multiset(s[1..]);
          var k :| 0 <= k < |s[1..]| && s[1..][k] == r[j];
          assert s[k + 1] == r[j];
        }
      }
    }
  }

  lemma {:induction false} SortAscending(s: seq<string>)
    ensures Ascending(SortText(s))
    decreases |s|
  {
    if s != [] {
      SortAscending(s[1..]);
      InsertAscending(s[0], SortText(s[1..]));
    }
  }

  /** Sorting distinct strings orders them strictly. */
  lemma SortStrict(s: seq<string>)
    requires Distinct(s)
    ensures StrictlyAscending(SortText(s))
    ensures forall x :: x in SortText(s) <==> x in s
  {
    var r := SortText(s);
    SortAscending(s);
    forall x
      ensures x in r <==> x in s
    {
      assert x in r <==> x in multiset(r);
      assert x in s <==> x in multiset(s);
    }
    DistinctAfterSort(s, r, Same);
    forall i, j | 0 <= i < j < |r|
      ensures Lt(r[i], r[j])
    {
      LtTotal(r[i], r[j]);
    }
  }

  function Same(x: string): string { x }

  /** A strictly ascending list is determined by its elements: any two with
      the same elements are equal. */
  lemma {:induction false} StrictlyAscendingUnique(s: seq<string>, r: seq<string>)
    requires StrictlyAscending(s) && StrictlyAscending(r)
    requires forall x :: x in s <==> x in r
    ensures s == r
    decreases |s|
  {
    assert s != [] ==> s[0] in r;
    assert r != [] ==> r[0] in s;
    if s != [] && r != [] {
      if s[0] != r[0] {
        assert s[0] in r && r[0] in s;
        var k :| 0 <= k < |r| && r[k] == s[0];
        var l :| 0 <= l < |s| && s[l] == r[0];
        assert k > 0 && l > 0;
        assert Lt(r[0], s[0]) && Lt(s[0], r[0]);
        LtAsymmetric(r[0], s[0]);
        assert false;
      }
      forall x
        ensures x in s[1..] <==> x in r[1..]
      {
        if x in s[1..] {
          var k :| 0 <= k < |s[1..]| && s[1..][k] == x;
          assert Lt(s[0], s[k + 1]);
          LtIrreflexive(s[0]);
          assert x in r && x != r[0];
        }
        if x in r[1..] {
          var k :| 0 <= k < |r[1..]| && r[1..][k] == x;
          assert Lt(r[0], r[k + 1]);
          LtIrreflexive(r[0]);
          assert x in s && x != s[0];
        }
      }
      StrictlyAscendingUnique(s[1..], r[1..]);
      assert s == [s[0]] + s[1..] && r == [r[0]] + r[1..];
    }
  }

  /** `reverse()`. */
  function Reverse(s: seq<string>): (r: seq<string>)
    ensures |r| == |s| && forall i :: 0 <= i < |s| ==> r[i] == s[|s| - 1 - i]
  {
    if s == [] then [] else Reverse(s[1..]) + [s[0]]
  }

  // ---------------------------------------------------------------------
  // Collecting

  /** The distinct non-empty values of `field`, in the order they first
      appear: `Array.from` of a `Set` filled by `add` in row order. */
  function Collect<T>(ts: seq<T>, field: T -> string): (vs: seq<string>)
    ensures Distinct(vs)
    ensures forall v :: v in vs <==> exists i :: 0 <= i < |ts| && field(ts[i]) == v && v != ""
    decreases |ts|
  {
    if ts == [] then []
    else
      var init := ts[..|ts| - 1];
      var vs := Collect(init, field);
      var v := field(ts[|ts| - 1]);
      assert forall j :: 0 <= j < |init| ==> ts[j] == init[j];
      if v != "" && v !in vs then vs + [v] else vs
  }

  lemma CollectSnoc<T>(ts: seq<T>, t: T, field: T -> string)
    ensures Collect(ts + [t], field) ==
              if field(t) != "" && field(t) !in Collect(ts, field) then Collect(ts, field) + [field(t)] else Collect(ts, field)
  {
    assert (ts + [t])[..|ts|] == ts;
  }

  /** `t.date.slice(0, 4)`, which is empty exactly when the date is. */
  function YearOf(t: Transaction): (y: string)
    ensures y == "" <==> t.date == ""
  {
    YearText(t.date)
  }

  function AgentOf(t: Transaction): string { t.agentName }
  function StatusOf(t: Transaction): string { t.status }
  function IndustryOf(t: Transaction): string { t.industry }

  datatype Choices = Choices(years: seq<string>, agents: seq<string>, statuses: seq<string>, industries: seq<string>)

  /** What the memo computes for the mapped rows `ts`. */
  function ChoicesOf(ts: seq<Transaction>): Choices {
    Choices(
      Reverse(SortText(Collect(ts, YearOf))),
      SortText(Collect(ts, AgentOf)),
      SortText(Collect(ts, StatusOf)),
      SortText(Collect(ts, IndustryOf)))
  }

  /** `set.add(v)` on an insertion-ordered set. */
  function Add(s: seq<string>, v: string): (r: seq<string>)
    ensures forall x :: x in r <==> x in s || x == v
  {
    if v in s then s else s + [v]
  }

  /** The memo's `forEach`, then the sorts and the reversal of the years. */
  method AvailableChoices(ts: seq<Transaction>) returns (c: Choices)
    ensures c == ChoicesOf(ts)
  {
    var years, agents, statuses, industries: seq<string> := [], [], [], [];
    for i := 0 to |ts|
      invariant years == Collect(ts[..i], YearOf)
      invariant agents == Collect(ts[..i], AgentOf)
      invariant statuses == Collect(ts[..i], StatusOf)
      invariant industries == Collect(ts[..i], IndustryOf)
    {
      var t := ts[i];
      assert ts[..i + 1] == ts[..i] + [t];
      CollectSnoc(ts[..i], t, YearOf);
      CollectSnoc(ts[..i], t, AgentOf);
      CollectSnoc(ts[..i], t, StatusOf);
      CollectSnoc(ts[..i], t, IndustryOf);
      if t.date != "" {
        years := Add(years, YearText(t.date));
      }
      if t.agentName != "" {
        agents := Add(agents, t.agentName);
      }
      if t.status != "" {
        statuses := Add(statuses, t.status);
      }
      if t.industry != "" {
        industries := Add(industries, t.industry);
      }
    }
    assert ts[..|ts|] == ts;
    c := Choices(Reverse(SortText(years)), SortText(agents), SortText(statuses), SortText(industries));
  }

  // ---------------------------------------------------------------------
  // Properties

  /** A sorted choice list: strictly ascending, holding exactly the
      non-empty values of the field, and the only such list. */
  lemma SortedChoices<T>(ts: seq<T>, field: T -> string)
    ensures StrictlyAscending(SortText(Collect(ts, field)))
    ensures forall v :: v in SortText(Collect(ts, field)) <==> exists i :: 0 <= i < |ts| && field(ts[i]) == v && v != ""
    ensures forall s :: StrictlyAscending(s) && (forall v :: v in s <==> v in Collect(ts, field)) ==> s == SortText(Collect(ts, field))
  {
    var vs := Collect(ts, field);
    SortStrict(vs);
    forall s | StrictlyAscending(s) && (forall v :: v in s <==> v in vs)
      ensures s == SortText(vs)
    {
      StrictlyAscendingUnique(s, SortText(vs));
    }
  }

  /** The agent, status and industry choices are the distinct non-empty
      values, in ascending order and each once. */
  lemma ChoicesAscending(ts: seq<Transaction>)
    ensures StrictlyAscending(ChoicesOf(ts).agents)
    ensures forall v :: v in ChoicesOf(ts).agents <==> exists i :: 0 <= i < |ts| && ts[i].agentName == v && v != ""
    ensures StrictlyAscending(ChoicesOf(ts).statuses)
    ensures forall v :: v in ChoicesOf(ts).statuses <==> exists i :: 0 <= i < |ts| && ts[i].status == v && v != ""
    ensures StrictlyAscending(ChoicesOf(ts).industries)
    ensures forall v :: v in ChoicesOf(ts).industries <==> exists i :: 0 <= i < |ts| && ts[i].industry == v && v != ""
  {
    SortedChoices(ts, AgentOf);
    SortedChoices(ts, StatusOf);
    SortedChoices(ts, IndustryOf);
  }

  /** The year choices are the distinct year prefixes of the non-empty
      dates, latest first and each once. */
  lemma YearsDescending(ts: seq<Transaction>)
    ensures forall i, j :: 0 <= i < j < |ChoicesOf(ts).years| ==> Lt(ChoicesOf(ts).years[j], ChoicesOf(ts).years[i])
    ensures forall v :: v in ChoicesOf(ts).years <==> exists i :: 0 <= i < |ts| && ts[i].date != "" && YearText(ts[i].date) == v
  {
    var s := SortText(Collect(ts, YearOf));
    SortedChoices(ts, YearOf);
    ReverseStrict(s);
    assert ChoicesOf(ts).years == Reverse(s);
  }

  /** Reversing a strictly ascending list gives a strictly descending one
      with the same elements. */
  lemma ReverseStrict(s: seq<string>)
    requires StrictlyAscending(s)
    ensures forall i, j :: 0 <= i < j < |Reverse(s)| ==> Lt(Reverse(s)[j], Reverse(s)[i])
    ensures forall v :: v in Reverse(s) <==> v in s
  {
    var r := Reverse(s);
    forall v
      ensures v in r <==> v in s
    {
      if v in r {
        var k :| 0 <= k < |r| && r[k] == v;
        assert s[|s| - 1 - k] == v;
      }
      if v in s {
        var k :| 0 <= k < |s| && s[k] == v;
        assert r[|s| - 1 - k] == v;
      }
    }
  }
}
