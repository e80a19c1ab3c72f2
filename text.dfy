/** String helpers with the JavaScript semantics the dashboard relies on:
    the `\s` character class, `trim`, `includes`, `split`, `toUpperCase` and
    `toLowerCase` (on ASCII letters), and `String(n)` for natural numbers. */
module Text {

  /** The characters matched by JavaScript's `\s` and removed by `String.prototype.trim`. */
  predicate IsSpace(c: char) {
    || c == ' ' || c == '\t' || c == '\n' || c == '\U{000B}' || c == '\U{000C}' || c == '\r'
    || c == '\U{00A0}' || c == '\U{1680}' || ('\U{2000}' <= c <= '\U{200A}')
    || c == '\U{2028}' || c == '\U{2029}' || c == '\U{202F}' || c == '\U{205F}'
    || c == '\U{3000}' || c == '\U{FEFF}'
  }

  predicate IsDigit(c: char) {
    '0' <= c <= '9'
  }

  function DigitValue(c: char): (d: nat)
    requires IsDigit(c)
    ensures d < 10
  {
    c as int - '0' as int
  }

  /** `String.prototype.trimStart`: drops the leading white space, keeps the rest. */
  function TrimLeft(s: string): (r: string)
    ensures |r| <= |s| && r == s[|s| - |r|..]
    ensures forall k :: 0 <= k < |s| - |r| ==> IsSpace(s[k])
    ensures r == [] || !IsSpace(r[0])
    decreases |s|
  {
    if s != [] && IsSpace(s[0]) then TrimLeft(s[1..]) else s
  }

  /** `String.prototype.trimEnd`: drops the trailing white space, keeps the rest. */
  function TrimRight(s: string): (r: string)
    ensures |r| <= |s| && r == s[..|r|]
    ensures forall k :: |r| <= k < |s| ==> IsSpace(s[k])
    ensures r == [] || !IsSpace(r[|r| - 1])
    decreases |s|
  {
    if s != [] && IsSpace(s[|s| - 1]) then TrimRight(s[..|s| - 1]) else s
  }

  /** `String.prototype.trim`. */
  function Trim(s: string): (r: string)
    ensures r == [] || (!IsSpace(r[0]) && !IsSpace(r[|r| - 1]))
    ensures forall c :: c in r ==> c in s
  {
    var l := TrimLeft(s);
    var r := TrimRight(l);
    SliceChars(s, |s| - |l|, |s|);
    SliceChars(l, 0, |r|);
    r
  }

  /** A slice holds only characters of the whole. */
  lemma SliceChars(s: string, i: nat, j: nat)
    requires i <= j <= |s|
    ensures forall c :: c in s[i..j] ==> c in s
  {
    forall c | c in s[i..j]
      ensures c in s
    {
      var k :| 0 <= k < j - i && s[i..j][k] == c;
      assert s[i + k] == c;
    }
  }

  /** `s.replace(/\s/g, '')`. */
  function RemoveSpaces(s: string): (r: string)
    ensures forall c :: c in r <==> c in s && !IsSpace(c)
    ensures |r| <= |s|
  {
    if s == [] then [] else (if IsSpace(s[0]) then [] else [s[0]]) + RemoveSpaces(s[1..])
  }

  /** `s.replace(/c/g, '')` for a single character `c`. */
  function RemoveAll(s: string, c: char): (r: string)
    ensures forall x :: x in r <==> x in s && x != c
    ensures |r| <= |s|
  {
    if s == [] then [] else (if s[0] == c then [] else [s[0]]) + RemoveAll(s[1..], c)
  }

  /** `s.replace('c', '')` with a STRING pattern: only the first occurrence goes. */
  function RemoveFirst(s: string, c: char): (r: string)
    ensures c in s ==> |r| == |s| - 1
    ensures c !in s ==> r == s
    decreases |s|
  {
    if s == [] then [] else if s[0] == c then s[1..] else [s[0]] + RemoveFirst(s[1..], c)
  }

  /** `s.replace(/x/g, y)` for single characters. */
  function ReplaceChar(s: string, x: char, y: char): (r: string)
    ensures |r| == |s|
    ensures forall k :: 0 <= k < |s| ==> r[k] == if s[k] == x then y else s[k]
  {
    if s == [] then [] else [if s[0] == x then y else s[0]] + ReplaceChar(s[1..], x, y)
  }

  /** `s.startsWith(p)`. */
  predicate StartsWith(s: string, p: string) {
    |p| <= |s| && s[..|p|] == p
  }

  /** `s.includes(p)`. */
  predicate Contains(s: string, p: string)
    decreases |s|
  {
    StartsWith(s, p) || (s != [] && Contains(s[1..], p))
  }

  lemma {:induction false} ContainsAt(s: string, p: string, i: nat)
    requires i + |p| <= |s| && s[i..i + |p|] == p
    ensures Contains(s, p)
    decreases i
  {
    if i > 0 {
      assert s[1..][i - 1..i - 1 + |p|] == s[i..i + |p|];
      ContainsAt(s[1..], p, i - 1);
    }
  }

  /** A pattern whose first character does not occur in `s` is not contained in it. */
  lemma {:induction false} NotContainsWithoutHead(s: string, p: string)
    requires p != [] && p[0] !in s
    ensures !Contains(s, p)
    decreases |s|
  {
    if s != [] {
      assert s[0] in s;
      assert forall c :: c in s[1..] ==> c in s;
      NotContainsWithoutHead(s[1..], p);
    }
  }

  /** A pattern that does contain some character of `s` nowhere is not contained in it. */
  lemma {:induction false} NotContainsWithoutChar(s: string, p: string, k: nat)
    requires k < |p| && p[k] !in s
    ensures !Contains(s, p)
    decreases |s|
  {
    if s != [] {
      assert forall c :: c in s[1..] ==> c in s;
      NotContainsWithoutChar(s[1..], p, k);
    }
  }

  /** Every occurrence found by `Contains` sits at some index. */
  lemma {:induction false} ContainsWitness(s: string, p: string) returns (i: nat)
    requires Contains(s, p)
    ensures i + |p| <= |s| && s[i..i + |p|] == p
    decreases |s|
  {
    if StartsWith(s, p) {
      i := 0;
    } else {
      var j := ContainsWitness(s[1..], p);
      assert s[1..][j..j + |p|] == s[j + 1..j + 1 + |p|];
      i := j + 1;
    }
  }

  /** `toUpperCase` on one character, ASCII letters only. */
  function UpperChar(c: char): (u: char)
    ensures IsSpace(u) <==> IsSpace(c)
    ensures !('a' <= u <= 'z')
  {
    if 'a' <= c <= 'z' then (c as int - 32) as char else c
  }

  /** `toLowerCase` on one character, ASCII letters only. */
  function LowerChar(c: char): (l: char)
    ensures IsSpace(l) <==> IsSpace(c)
    ensures !('A' <= l <= 'Z')
  {
    if 'A' <= c <= 'Z' then (c as int + 32) as char else c
  }

  function Upper(s: string): (r: string)
    ensures |r| == |s| && forall k :: 0 <= k < |s| ==> r[k] == UpperChar(s[k])
  {
    if s == [] then [] else [UpperChar(s[0])] + Upper(s[1..])
  }

  function Lower(s: string): (r: string)
    ensures |r| == |s| && forall k :: 0 <= k < |s| ==> r[k] == LowerChar(s[k])
  {
    if s == [] then [] else [LowerChar(s[0])] + Lower(s[1..])
  }

  /** Upper-casing a lower-cased string is the same as upper-casing the original. */
  lemma UpperOfLower(s: string)
    ensures Upper(Lower(s)) == Upper(s)
  {
    assert forall k :: 0 <= k < |s| ==> UpperChar(LowerChar(s[k])) == UpperChar(s[k]);
  }

  /** Upper-casing and removing white space commute. */
  lemma {:induction false} RemoveSpacesUpper(s: string)
    ensures RemoveSpaces(Upper(s)) == Upper(RemoveSpaces(s))
  {
    if s != [] {
      assert Upper(s)[1..] == Upper(s[1..]);
      RemoveSpacesUpper(s[1..]);
      assert Upper(RemoveSpaces(s)) == Upper(if IsSpace(s[0]) then [] else [s[0]]) + Upper(RemoveSpaces(s[1..])) by {
        UpperAppend(if IsSpace(s[0]) then [] else [s[0]], RemoveSpaces(s[1..]));
      }
    }
  }

  lemma UpperAppend(a: string, b: string)
    ensures Upper(a + b) == Upper(a) + Upper(b)
  {
    assert forall k :: 0 <= k < |a + b| ==> Upper(a + b)[k] == (Upper(a) + Upper(b))[k];
  }

  /** Dropping the white space at the ends does not change what `RemoveSpaces` keeps. */
  lemma RemoveSpacesTrim(s: string)
    ensures RemoveSpaces(Trim(s)) == RemoveSpaces(s)
  {
    RemoveSpacesTrimLeft(s);
    RemoveSpacesTrimRight(TrimLeft(s));
  }

  lemma RemoveSpacesTrimLeft(s: string)
    ensures RemoveSpaces(TrimLeft(s)) == RemoveSpaces(s)
  {
    var l := TrimLeft(s);
    var lead := s[..|s| - |l|];
    assert s == lead + l;
    RemoveSpacesAppend(lead, l);
    RemoveSpacesAllSpace(lead);
  }

  lemma RemoveSpacesTrimRight(s: string)
    ensures RemoveSpaces(TrimRight(s)) == RemoveSpaces(s)
  {
    var r := TrimRight(s);
    var trail := s[|r|..];
    assert s == r + trail;
    RemoveSpacesAppend(r, trail);
    RemoveSpacesAllSpace(trail);
  }

  lemma {:induction false} RemoveSpacesAppend(a: string, b: string)
    ensures RemoveSpaces(a + b) == RemoveSpaces(a) + RemoveSpaces(b)
  {
    if a != [] {
      assert (a + b)[1..] == a[1..] + b;
      RemoveSpacesAppend(a[1..], b);
    } else {
      assert a + b == b;
    }
  }

  lemma {:induction false} RemoveSpacesAllSpace(a: string)
    requires forall k :: 0 <= k < |a| ==> IsSpace(a[k])
    ensures RemoveSpaces(a) == []
  {
    if a != [] {
      RemoveSpacesAllSpace(a[1..]);
    }
  }

  /** `String(n)` for a natural number: its decimal numeral without leading zeros. */
  function Decimal(n: nat): (r: string)
    ensures r != [] && forall k :: 0 <= k < |r| ==> IsDigit(r[k])
    ensures DigitsValue(r) == n
    ensures n > 0 ==> r[0] != '0'
  {
    if n < 10 then [('0' as int + n) as char]
    else
      var p := Decimal(n / 10);
      var d := ('0' as int + n % 10) as char;
      DigitsValueSnoc(p, d);
      p + [d]
  }

  /** The value of a (possibly empty) run of decimal digits, most significant first. */
  function DigitsValue(s: string): nat
    requires forall k :: 0 <= k < |s| ==> IsDigit(s[k])
  {
    if s == [] then 0 else DigitsValue(s[..|s| - 1]) * 10 + DigitValue(s[|s| - 1])
  }

  lemma DigitsValueSnoc(s: string, d: char)
    requires forall k :: 0 <= k < |s| ==> IsDigit(s[k])
    requires IsDigit(d)
    ensures DigitsValue(s + [d]) == DigitsValue(s) * 10 + DigitValue(d)
  {
    assert (s + [d])[..|s|] == s;
  }

  /** `String.prototype.split` with a one-character separator. */
  function Split(s: string, sep: char): (r: seq<string>)
    ensures |r| >= 1
    ensures forall i :: 0 <= i < |r| ==> sep !in r[i]
    ensures Join(r, sep) == s
  {
    if s == [] then [[]]
    else
      var rest := Split(s[1..], sep);
      if s[0] == sep then
        assert Join([[]] + rest, sep) == [sep] + Join(rest, sep) by {
          JoinCons([], rest, sep);
        }
        [[]] + rest
      else
        var r := [[s[0]] + rest[0]] + rest[1..];
        assert Join(r, sep) == [s[0]] + Join(rest, sep) by {
          JoinHead(rest, sep);
          if |rest| > 1 {
            JoinCons([s[0]] + rest[0], rest[1..], sep);
          }
        }
        r
  }

  /** `Array.prototype.join` with a one-character separator; the inverse of `Split`. */
  function Join(parts: seq<string>, sep: char): string {
    if parts == [] then [] else if |parts| == 1 then parts[0] else parts[0] + [sep] + Join(parts[1..], sep)
  }

  lemma JoinCons(p: string, ps: seq<string>, sep: char)
    requires ps != []
    ensures Join([p] + ps, sep) == p + [sep] + Join(ps, sep)
  {
    assert ([p] + ps)[1..] == ps;
  }

  lemma JoinHead(ps: seq<string>, sep: char)
    requires ps != []
    ensures Join(ps, sep) == ps[0] + (if |ps| == 1 then [] else [sep] + Join(ps[1..], sep))
  {
  }

  /** Splitting the join of separator-free parts gives the parts back. */
  lemma {:induction false} SplitJoin(parts: seq<string>, sep: char)
    requires |parts| >= 1
    requires forall i :: 0 <= i < |parts| ==> sep !in parts[i]
    ensures Split(Join(parts, sep), sep) == parts
    decreases |parts|, |parts[0]|
  {
    var p := parts[0];
    if p == [] {
      if |parts| == 1 {
      } else {
        JoinCons(p, parts[1..], sep);
        assert Join(parts, sep) == [sep] + Join(parts[1..], sep);
        assert ([sep] + Join(parts[1..], sep))[1..] == Join(parts[1..], sep);
        SplitJoin(parts[1..], sep);
        assert parts == [[]] + parts[1..];
      }
    } else {
      var tailParts := [p[1..]] + parts[1..];
      assert sep !in p[1..] by {
        assert forall c :: c in p[1..] ==> c in p;
      }
      assert forall i :: 0 <= i < |tailParts| ==> sep !in tailParts[i];
      SplitJoin(tailParts, sep);
      var s := Join(parts, sep);
      if |parts| == 1 {
        assert s == p;
        assert s[1..] == Join(tailParts, sep);
      } else {
        JoinCons(p, parts[1..], sep);
        JoinCons(p[1..], parts[1..], sep);
        assert s[1..] == Join(tailParts, sep);
      }
      assert s[0] == p[0] && p[0] != sep;
      var rest := Split(s[1..], sep);
      assert rest == tailParts;
      assert Split(s, sep) == [[s[0]] + rest[0]] + rest[1..];
      assert [p[0]] + p[1..] == p;
      assert rest[1..] == parts[1..];
      assert parts == [p] + parts[1..];
    }
  }

  lemma RemoveAbsent(s: string, c: char)
    requires c !in s
    ensures RemoveAll(s, c) == s
  {
    if s != [] {
      assert c !in s[1..];
      RemoveAbsent(s[1..], c);
    }
  }

  lemma RemoveSpacesNone(s: string)
    requires forall k :: 0 <= k < |s| ==> !IsSpace(s[k])
    ensures RemoveSpaces(s) == s
  {
    if s != [] {
      RemoveSpacesNone(s[1..]);
    }
  }

  /** Printable ASCII text has no white space to remove. */
  lemma RemoveSpacesVisible(s: string)
    requires forall k :: 0 <= k < |s| ==> '!' <= s[k] <= '~'
    ensures RemoveSpaces(s) == s
  {
    if s != [] {
      RemoveSpacesVisible(s[1..]);
    }
  }
}
