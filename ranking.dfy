/** Ranking: `Array.prototype.sort` with the comparator
    `(a, b) => b.revenue - a.revenue` (src/App.tsx:353-355), which is a
    stable sort by descending revenue, and `slice(0, n)`. The monthly series
    sorts ascending by `sortKey` (src/App.tsx:161), which is the same sort
    on the negated key. */
module Ranking {

  /** Places `x` before the first element whose revenue is not above its own,
      so it also precedes the elements it ties with. */
  function Insert<T>(x: T, s: seq<T>, rev: T -> real): (r: seq<T>)
    ensures multiset(r) == multiset(s) + multiset{x}
    ensures |r| == |s| + 1
  {
    if s == [] || rev(s[0]) <= rev(x) then [x] + s
    else
      assert s == [s[0]] + s[1..];
      [s[0]] + Insert(x, s[1..], rev)
  }

  /** The stable descending sort. Elements are inserted from the back, each
      in front of the ones it ties with, so ties keep their input order. */
  function SortDesc<T>(s: seq<T>, rev: T -> real): (r: seq<T>)
    ensures multiset(r) == multiset(s)
    ensures |r| == |s|
  {
    if s == [] then []
    else
      assert s == [s[0]] + s[1..];
      Insert(s[0], SortDesc(s[1..], rev), rev)
  }

  /** Non-increasing by revenue. */
  predicate Descending<T>(s: seq<T>, rev: T -> real) {
    forall i, j :: 0 <= i < j < |s| ==> rev(s[i]) >= rev(s[j])
  }

  lemma {:induction false} InsertDescending<T>(x: T, s: seq<T>, rev: T -> real)
    requires Descending(s, rev)
    ensures Descending(Insert(x, s, rev), rev)
    decreases |s|
  {
    if s != [] && rev(s[0]) > rev(x) {
      InsertDescending(x, s[1..], rev);
      var r := Insert(x, s[1..], rev);
      assert multiset(r) == multiset(s[1..]) + multiset{x};
      forall j | 0 <= j < |r|
        ensures rev(s[0]) >= rev(r[j])
      {
        assert r[j] in multiset(r);
        if r[j] != x {
          assert r[j] in multiset(s[1..]);
          var k :| 0 <= k < |s[1..]| && s[1..][k] == r[j];
          assert s[k + 1] == r[j];
        }
      }
    }
  }

  /** The ranking is non-increasing by revenue. */
  lemma {:induction false} SortDescending<T>(s: seq<T>, rev: T -> real)
    ensures Descending(SortDesc(s, rev), rev)
    decreases |s|
  {
    if s != [] {
      SortDescending(s[1..], rev);
      InsertDescending(s[0], SortDesc(s[1..], rev), rev);
    }
  }

  /** The elements whose revenue is `v`, in order. */
  function Ties<T>(s: seq<T>, rev: T -> real, v: real): seq<T> {
    if s == [] then []
    else (if rev(s[0]) == v then [s[0]] else []) + Ties(s[1..], rev, v)
  }

  lemma {:induction false} InsertTies<T>(x: T, s: seq<T>, rev: T -> real, v: real)
    ensures Ties(Insert(x, s, rev), rev, v) == (if rev(x) == v then [x] else []) + Ties(s, rev, v)
    decreases |s|
  {
    if s == [] || rev(s[0]) <= rev(x) {
      assert ([x] + s)[1..] == s;
    } else {
      InsertTies(x, s[1..], rev, v);
      var r := [s[0]] + Insert(x, s[1..], rev);
      assert r[1..] == Insert(x, s[1..], rev);
      var a: seq<T> := if rev(s[0]) == v then [s[0]] else [];
      var b: seq<T> := if rev(x) == v then [x] else [];
      var rest := Ties(s[1..], rev, v);
      assert Ties(r, rev, v) == a + (b + rest);
      assert Ties(s, rev, v) == a + rest;
      assert a == [] || b == [];
      assert a + (b + rest) == b + (a + rest);
    }
  }

  /** The sort is stable: the elements of any one revenue come out in the
      order they went in. */
  lemma {:induction false} SortStable<T>(s: seq<T>, rev: T -> real, v: real)
    ensures Ties(SortDesc(s, rev), rev, v) == Ties(s, rev, v)
    decreases |s|
  {
    if s != [] {
      SortStable(s[1..], rev, v);
      InsertTies(s[0], SortDesc(s[1..], rev), rev, v);
    }
  }

  /** The sum of `w` over a sequence. */
  function SumOf<T>(s: seq<T>, w: T -> real): real {
    if s == [] then 0.0 else w(s[0]) + SumOf(s[1..], w)
  }

  lemma {:induction false} SumOfAppend<T>(a: seq<T>, b: seq<T>, w: T -> real)
    ensures SumOf(a + b, w) == SumOf(a, w) + SumOf(b, w)
    decreases |a|
  {
    if a == [] {
      assert a + b == b;
    } else {
      assert (a + b)[1..] == a[1..] + b;
      SumOfAppend(a[1..], b, w);
    }
  }

  lemma {:induction false} InsertSum<T>(x: T, s: seq<T>, rev: T -> real, w: T -> real)
    ensures SumOf(Insert(x, s, rev), w) == w(x) + SumOf(s, w)
    decreases |s|
  {
    if s == [] || rev(s[0]) <= rev(x) {
      assert ([x] + s)[1..] == s;
    } else {
      InsertSum(x, s[1..], rev, w);
      assert ([s[0]] + Insert(x, s[1..], rev))[1..] == Insert(x, s[1..], rev);
    }
  }

  /** Sorting does not change any sum over the elements. */
  lemma {:induction false} SortSum<T>(s: seq<T>, rev: T -> real, w: T -> real)
    ensures SumOf(SortDesc(s, rev), w) == SumOf(s, w)
    decreases |s|
  {
    if s != [] {
      SortSum(s[1..], rev, w);
      InsertSum(s[0], SortDesc(s[1..], rev), rev, w);
    }
  }

  /** `slice(0, n)`. */
  function Take<T>(s: seq<T>, n: nat): (r: seq<T>)
    ensures |r| == if |s| <= n then |s| else n
    ensures r == s[..|r|]
    ensures |s| <= n ==> r == s
  {
    if |s| <= n then s else s[..n]
  }

  /** `slice(-n)`: the last `n` elements, or all of them when there are fewer. */
  function TakeLast<T>(s: seq<T>, n: nat): (r: seq<T>)
    ensures |r| == if |s| <= n then |s| else n
    ensures r == s[|s| - |r|..]
    ensures |s| <= n ==> r == s
  {
    if |s| <= n then s else s[|s| - n..]
  }

  /** A reordering has the same elements. */
  lemma SameElements<G>(s: seq<G>, r: seq<G>)
    requires multiset(r) == multiset(s)
    ensures forall x :: x in r <==> x in s
  {
    forall x
      ensures x in r <==> x in s
    {
      assert x in r <==> x in multiset(r);
      assert x in s <==> x in multiset(s);
    }
  }

  /** Elements with pairwise distinct names. */
  predicate DistinctNames<G>(s: seq<G>, name: G -> string) {
    forall i, j :: 0 <= i < j < |s| ==> name(s[i]) != name(s[j])
  }

  /** Reordering elements with distinct names keeps the names distinct. */
  lemma DistinctAfterSort<G>(s: seq<G>, r: seq<G>, name: G -> string)
    requires multiset(r) == multiset(s)
    requires DistinctNames(s, name)
    ensures DistinctNames(r, name)
  {
    SameElements(s, r);
    forall i, j | 0 <= i < j < |r|
      ensures name(r[i]) != name(r[j])
    {
      if name(r[i]) == name(r[j]) {
        assert r[i] in s && r[j] in s;
        var p :| 0 <= p < |s| && r[i] == s[p];
        var q :| 0 <= q < |s| && r[j] == s[q];
        assert name(s[p]) == name(s[q]);
        assert p == q;
        OnlyOnce(s, name, p);
        TwiceInMultiset(r, i, j);
        assert false;
      }
    }
  }

  /** An element whose name is unique occurs once. */
  lemma {:induction false} OnlyOnce<G>(s: seq<G>, name: G -> string, p: nat)
    requires p < |s| && DistinctNames(s, name)
    ensures multiset(s)[s[p]] == 1
    decreases |s|
  {
    var n := |s| - 1;
    assert s == s[..n] + [s[n]];
    if p < n {
      OnlyOnce(s[..n], name, p);
      assert s[n] != s[p] by {
        assert name(s[n]) != name(s[p]);
      }
    } else {
      assert s[p] !in s[..n] by {
        forall i | 0 <= i < n
          ensures s[i] != s[p]
        {
          assert name(s[i]) != name(s[p]);
        }
      }
    }
  }

  /** Two positions holding the same element count it twice. */
  lemma TwiceInMultiset<G>(r: seq<G>, i: nat, j: nat)
    requires i < j < |r| && r[i] == r[j]
    ensures multiset(r)[r[i]] >= 2
  {
    assert r == r[..i] + [r[i]] + r[i + 1..j] + [r[j]] + r[j + 1..];
  }
}
