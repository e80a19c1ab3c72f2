/** The conventional optional value. */
module Optional {
  datatype Option<T> = None | Some(value: T)
}

/** Raw spreadsheet cells and the field-cleaning helpers `cleanNumber`,
    `cleanText` and `formatDate` (src/App.tsx:48-68), with the part of
    JavaScript's `parseFloat` they depend on. */
module Cells {
  import opened Optional
  import opened Text

  /** One cell of the raw feed: absent (`undefined`/`null`), a string, or a
      number. A number carries the numeral JavaScript's `String(value)`
      renders for it, since number formatting is not part of this model. */
  datatype Cell = Missing | Str(s: string) | Num(value: real, numeral: string)

  /** JavaScript truthiness of a cell (NaN is not modelled). */
  predicate Truthy(c: Cell) {
    match c
    case Missing => false
    case Str(s) => s != ""
    case Num(v, _) => v != 0.0
  }

  /** `String(c)` for a cell that is a string or a number. */
  function AsText(c: Cell): string {
    match c
    case Missing => ""
    case Str(s) => s
    case Num(_, numeral) => numeral
  }

  // ---------------------------------------------------------------- parseFloat

  /** Length of the run of decimal digits at the start of `s`. */
  function DigitRun(s: string): (n: nat)
    ensures n <= |s|
    ensures forall k :: 0 <= k < n ==> IsDigit(s[k])
    ensures n < |s| ==> !IsDigit(s[n])
  {
    if s != [] && IsDigit(s[0]) then 1 + DigitRun(s[1..]) else 0
  }

  function Pow10(n: nat): (r: nat)
    ensures r >= 1
  {
    if n == 0 then 1 else 10 * Pow10(n - 1)
  }

  /** `m` times ten to the power `e`. */
  function Scale(m: real, e: int): real {
    if e >= 0 then m * Pow10(e) as real else m / Pow10(-e) as real
  }

  /** The sign of a numeric literal, and what follows it. */
  function Unsigned(t: string): string {
    if t != [] && (t[0] == '-' || t[0] == '+') then t[1..] else t
  }

  /** The value of an exponent part `e[+-]digits` at the start of `s`, or 0
      when `s` does not start with a complete one (then `parseFloat` stops
      before the `e`). */
  function ExponentPart(s: string): int {
    if s != [] && (s[0] == 'e' || s[0] == 'E') then
      var u := Unsigned(s[1..]);
      var n := DigitRun(u);
      if n == 0 then 0
      else if s[1] == '-' then -(DigitsValue(u[..n]) as int)
      else DigitsValue(u[..n])
    else 0
  }

  /** The parts of a decimal literal: sign, integer digits, fraction digits, exponent. */
  datatype Literal = Literal(negative: bool, whole: string, fraction: string, exponent: int)

  /** Splits the text after the sign into its integer digits, its fraction
      digits and the rest. */
  function Mantissa(u: string): (m: (string, string, string))
    ensures forall k :: 0 <= k < |m.0| ==> IsDigit(m.0[k])
    ensures forall k :: 0 <= k < |m.1| ==> IsDigit(m.1[k])
    ensures m.0 == [] <==> DigitRun(u) == 0
  {
    var n := DigitRun(u);
    var rest := u[n..];
    if rest != [] && rest[0] == '.' then
      var f := DigitRun(rest[1..]);
      (u[..n], rest[1..][..f], rest[1..][f..])
    else (u[..n], [], rest)
  }

  /** The longest prefix of `s` (after leading white space) that is a decimal
      literal, or `None` when it has no digit before its end or its exponent. */
  function ReadLiteral(s: string): (r: Option<Literal>)
    ensures r.Some? ==> forall k :: 0 <= k < |r.value.whole| ==> IsDigit(r.value.whole[k])
    ensures r.Some? ==> forall k :: 0 <= k < |r.value.fraction| ==> IsDigit(r.value.fraction[k])
  {
    var t := TrimLeft(s);
    var m := Mantissa(Unsigned(t));
    if m.0 == [] && m.1 == [] then None
    else Some(Literal(t != [] && t[0] == '-', m.0, m.1, ExponentPart(m.2)))
  }

  function LiteralValue(l: Literal): real
    requires forall k :: 0 <= k < |l.whole| ==> IsDigit(l.whole[k])
    requires forall k :: 0 <= k < |l.fraction| ==> IsDigit(l.fraction[k])
  {
    var mantissa := DigitsValue(l.whole) as real + DigitsValue(l.fraction) as real / Pow10(|l.fraction|) as real;
    var magnitude := Scale(mantissa, l.exponent);
    if l.negative then -magnitude else magnitude
  }

  /** JavaScript's `parseFloat`: skips leading white space and reads the
      longest prefix that is a decimal literal (sign, digits, optional
      fraction, optional exponent); `None` stands for NaN. */
  function ParseFloat(s: string): (r: Option<real>)
    ensures r.None? <==> ReadLiteral(s).None?
  {
    match ReadLiteral(s)
    case None => None
    case Some(l) => Some(LiteralValue(l))
  }

  /** A run of digits is read in full by `DigitRun`. */
  lemma DigitRunAll(s: string)
    requires forall k :: 0 <= k < |s| ==> IsDigit(s[k])
    ensures DigitRun(s) == |s|
  {
    if s != [] {
      DigitRunAll(s[1..]);
    }
  }

  /** A non-empty run of digits is read as a literal with no sign, fraction or exponent. */
  lemma ReadDigits(s: string)
    requires s != [] && forall k :: 0 <= k < |s| ==> IsDigit(s[k])
    ensures ReadLiteral(s) == Some(Literal(false, s, [], 0))
  {
    assert TrimLeft(s) == s by {
      assert !IsSpace(s[0]);
    }
    assert Unsigned(s) == s;
    DigitRunAll(s);
    assert s[|s|..] == [] && s[..|s|] == s;
    assert Mantissa(s) == (s, [], []);
  }

  /** `parseFloat(String(n)) == n` for every natural number `n`. */
  lemma ParseDecimal(n: nat)
    ensures ParseFloat(Decimal(n)) == Some(n as real)
  {
    var s := Decimal(n);
    ReadDigits(s);
    assert DigitsValue([]) == 0 && Pow10(0) == 1;
  }

  // ---------------------------------------------------------------- cleanNumber

  /** The text `cleanNumber` hands to `parseFloat`: every comma removed, then
      the FIRST `$` only (a string pattern, not a global regex), then every
      white-space character. */
  function NumericText(s: string): string {
    RemoveSpaces(RemoveFirst(RemoveAll(s, ','), '$'))
  }

  /** `cleanNumber`: falsy cells give 0, numbers are returned unchanged, and
      strings are cleaned and parsed, NaN (and 0) giving 0. */
  function CleanNumber(c: Cell): (r: real)
    ensures !Truthy(c) ==> r == 0.0
    ensures c.Num? ==> r == c.value
    ensures c.Str? && ParseFloat(NumericText(c.s)).None? ==> r == 0.0
    ensures c.Str? && ParseFloat(NumericText(c.s)).Some? ==> r == ParseFloat(NumericText(c.s)).value
  {
    match c
    case Missing => 0.0
    case Num(v, _) => v
    case Str(s) =>
      if s == "" then 0.0
      else match ParseFloat(NumericText(s))
        case None => 0.0
        case Some(v) => v
  }

  /** A plain numeral survives cleaning: `cleanNumber(String(n)) == n`. */
  lemma CleanNumberOfDecimal(n: nat)
    ensures CleanNumber(Str(Decimal(n))) == n as real
  {
    var s := Decimal(n);
    assert RemoveAll(s, ',') == s by { RemoveAbsent(s, ','); }
    assert RemoveFirst(s, '$') == s by { assert '$' !in s; }
    assert RemoveSpaces(s) == s by { RemoveSpacesNone(s); }
    ParseDecimal(n);
  }



  /** Digits, a point and more digits are read as a literal with that whole and fraction part. */
  lemma ReadFraction(w: string, f: string)
    requires w != [] && forall k :: 0 <= k < |w| ==> IsDigit(w[k])
    requires forall k :: 0 <= k < |f| ==> IsDigit(f[k])
    ensures ReadLiteral(w + "." + f) == Some(Literal(false, w, f, 0))
  {
    var s := w + "." + f;
    assert TrimLeft(s) == s by {
      assert s[0] == w[0] && !IsSpace(s[0]);
    }
    assert Unsigned(s) == s;
    MantissaOfFraction(w, f);
  }

  lemma MantissaOfFraction(w: string, f: string)
    requires w != [] && forall k :: 0 <= k < |w| ==> IsDigit(w[k])
    requires forall k :: 0 <= k < |f| ==> IsDigit(f[k])
    ensures Mantissa(w + "." + f) == (w, f, [])
  {
    var s := w + "." + f;
    PrefixRun(s, |w|);
    var rest := s[|w|..];
    assert rest == "." + f;
    assert rest[1..] == f;
    DigitRunAll(f);
    assert f[..|f|] == f && f[|f|..] == [];
    assert s[..|w|] == w;
  }

  /** "1,234.50" is cleaned to 1234.5. */
  lemma CleanNumberGrouped()
    ensures CleanNumber(Str("1,234.50")) == 1234.5
  {
    GroupedText();
    GroupedValue();
  }

  lemma GroupedText()
    ensures NumericText("1,234.50") == "1234.50"
  {
    GroupedCommas();
    GroupedNoDollar();
    GroupedNoSpaces();
  }

  lemma GroupedNoSpaces()
    ensures RemoveSpaces("1234.50") == "1234.50"
  {
    RemoveSpacesVisible("1234.50");
  }


  lemma GroupedSplit()
    ensures "1234.50" == "1234" + "." + "50"
  {
  }

  lemma GroupedNoDollar()
    ensures RemoveFirst("1234.50", '$') == "1234.50"
  {
    assert '$' !in "1234.50";
  }

  lemma GroupedCommas()
    ensures RemoveAll("1,234.50", ',') == "1234.50"
  {
    assert "1,234.50" == "1" + [','] + "234.50";
    RemoveOnly("1", "234.50", ',');
    assert "1" + "234.50" == "1234.50";
  }

  /** Removing the one occurrence of `c` joins the parts around it. */
  lemma {:induction false} RemoveOnly(a: string, b: string, c: char)
    requires c !in a && c !in b
    ensures RemoveAll(a + [c] + b, c) == a + b
    decreases |a|
  {
    var s := a + [c] + b;
    if a == [] {
      assert s[1..] == b;
      RemoveAbsent(b, c);
    } else {
      assert s[1..] == a[1..] + [c] + b;
      assert s[0] == a[0] != c;
      RemoveOnly(a[1..], b, c);
      assert a + b == [a[0]] + (a[1..] + b);
    }
  }

  lemma RemoveAllAppend(a: string, b: string, c: char)
    ensures RemoveAll(a + b, c) == RemoveAll(a, c) + RemoveAll(b, c)
  {
    if a != [] {
      assert (a + b)[1..] == a[1..] + b;
      RemoveAllAppend(a[1..], b, c);
    } else {
      assert a + b == b;
    }
  }

  lemma GroupedValue()
    ensures ParseFloat("1234.50") == Some(1234.5)
  {
    var l := Literal(false, "1234", "50", 0);
    GroupedLiteral();
    GroupedDigits();
    assert Pow10(2) == 100;
    assert LiteralValue(l) == Scale(1234.0 + 50.0 / 100.0, 0);
  }

  lemma GroupedLiteral()
    ensures ReadLiteral("1234.50") == Some(Literal(false, "1234", "50", 0))
  {
    GroupedSplit();
    ReadFraction("1234", "50");
  }

  lemma GroupedDigits()
    ensures DigitsValue("1234") == 1234
    ensures DigitsValue("50") == 50
  {
    assert "1234"[..3] == "123";
    assert "123"[..2] == "12";
    assert "12"[..1] == "1";
    assert "50"[..1] == "5";
  }

  /** A leading digit run of length `n` followed by a non-digit is measured as `n`. */
  lemma PrefixRun(s: string, n: nat)
    requires n <= |s|
    requires forall k :: 0 <= k < n ==> IsDigit(s[k])
    requires n < |s| ==> !IsDigit(s[n])
    ensures DigitRun(s) == n
  {
    if n > 0 {
      PrefixRun(s[1..], n - 1);
    }
  }

  /** Only the first `$` is removed: "$5" cleans to 5 but "$$5" to 0. */
  lemma CleanNumberFirstDollarOnly()
    ensures CleanNumber(Str("$5")) == 5.0
    ensures CleanNumber(Str("$$5")) == 0.0
  {
    OneDollar();
    TwoDollars();
  }

  lemma OneDollar()
    ensures NumericText("$5") == "5" && ParseFloat("5") == Some(5.0)
  {
    OneDollarText();
    ParseFive();
  }

  lemma OneDollarText()
    ensures NumericText("$5") == "5"
  {
    RemoveAbsent("$5", ',');
    OneDollarRemoved();
    RemoveSpacesVisible("5");
  }

  lemma OneDollarRemoved()
    ensures RemoveFirst("$5", '$') == "5"
  {
    assert "$5"[1..] == "5";
  }

  lemma ParseFive()
    ensures ParseFloat("5") == Some(5.0)
  {
    ReadDigits("5");
    assert DigitsValue("5") == 5 by {
      assert "5"[..0] == [];
    }
    assert DigitsValue([]) == 0 && Pow10(0) == 1;
  }

  lemma TwoDollars()
    ensures NumericText("$$5") == "$5" && ReadLiteral("$5") == None
  {
    TwoDollarsText();
    DollarNoLiteral();
  }

  lemma TwoDollarsText()
    ensures NumericText("$$5") == "$5"
  {
    RemoveAbsent("$$5", ',');
    assert RemoveFirst("$$5", '$') == "$5" by {
      assert "$$5"[1..] == "$5";
    }
    RemoveSpacesVisible("$5");
  }

  lemma DollarNoLiteral()
    ensures ReadLiteral("$5") == None
  {
    NoLeadingDigit("$5");
  }

  /** Text that starts with none of white space, a sign, a digit or a point
      holds no literal. */
  lemma NoLeadingDigit(u: string)
    requires u != [] && !IsSpace(u[0]) && u[0] != '-' && u[0] != '+' && !IsDigit(u[0]) && u[0] != '.'
    ensures ReadLiteral(u) == None
  {
    assert TrimLeft(u) == u;
    assert Unsigned(u) == u;
    assert DigitRun(u) == 0;
    assert u[0..] == u;
  }

  // ---------------------------------------------------------------- cleanText

  /** Drops everything up to and including the first `>` (all of `s` when there is none). */
  function AfterTag(s: string): (r: string)
    ensures |r| <= |s|
    ensures forall c :: c in r ==> c in s
  {
    if s == [] then [] else if s[0] == '>' then s[1..] else AfterTag(s[1..])
  }

  /** `s.replace(/<[^>]*>?/gm, '')`: each `<` starts a match that runs to the
      next `>` inclusive, or to the end of the string. */
  function StripTags(s: string): (r: string)
    ensures '<' !in r
    ensures forall c :: c in r ==> c in s
    decreases |s|
  {
    if s == [] then []
    else if s[0] == '<' then StripTags(AfterTag(s[1..]))
    else [s[0]] + StripTags(s[1..])
  }

  /** `s.replace(/\\n/g, ' ')`: the two characters backslash and `n` become a space. */
  function ReplaceEscapedNewlines(s: string): (r: string)
    ensures forall c :: c in r ==> c in s || c == ' '
    ensures !HasEscapedNewline(r)
    decreases |s|
  {
    if |s| >= 2 && s[0] == '\\' && s[1] == 'n' then [' '] + ReplaceEscapedNewlines(s[2..])
    else if s == [] then []
    else
      var rest := ReplaceEscapedNewlines(s[1..]);
      [s[0]] + rest
  }

  /** Text before the first `<` is kept as it is. */
  lemma {:induction false} StripTagsPrefix(a: string, b: string)
    requires '<' !in a
    ensures StripTags(a + b) == a + StripTags(b)
    decreases |a|
  {
    if a == [] {
      assert a + b == b;
    } else {
      assert (a + b)[0] == a[0] && (a + b)[1..] == a[1..] + b;
      StripTagsPrefix(a[1..], b);
    }
  }

  /** A tag body without `>` is skipped up to and including its `>`. */
  lemma {:induction false} AfterTagSkips(t: string, b: string)
    requires '>' !in t
    ensures AfterTag(t + ">" + b) == b
    decreases |t|
  {
    if t == [] {
      assert t + ">" + b == ['>'] + b;
    } else {
      assert (t + ">" + b)[1..] == t[1..] + ">" + b;
      AfterTagSkips(t[1..], b);
    }
  }

  /** A `<` never followed by `>` swallows the rest of the text. */
  lemma {:induction false} AfterTagUnclosed(t: string)
    requires '>' !in t
    ensures AfterTag(t) == []
    decreases |t|
  {
    if t != [] {
      AfterTagUnclosed(t[1..]);
    }
  }

  /** One match of `<[^>]*>?`: a closed tag is removed and the text around
      it is kept. */
  lemma StripTagsRemovesTag(a: string, t: string, b: string)
    requires '<' !in a && '>' !in t
    ensures StripTags(a + "<" + t + ">" + b) == a + StripTags(b)
  {
    var rest := t + ">" + b;
    assert a + "<" + t + ">" + b == a + (['<'] + rest);
    StripTagsPrefix(a, ['<'] + rest);
    assert (['<'] + rest)[1..] == rest;
    AfterTagSkips(t, b);
  }

  /** A tag left open runs to the end of the text. */
  lemma StripTagsRemovesOpenTag(a: string, t: string)
    requires '<' !in a && '>' !in t
    ensures StripTags(a + "<" + t) == a
  {
    assert a + "<" + t == a + (['<'] + t);
    StripTagsPrefix(a, ['<'] + t);
    assert (['<'] + t)[1..] == t;
    AfterTagUnclosed(t);
  }

  /** Text without an escaped line break, not ending in a backslash, is
      kept as it is in front of whatever follows. */
  lemma {:induction false} ReplaceEscapedPrefix(a: string, b: string)
    requires !HasEscapedNewline(a)
    requires a == [] || a[|a| - 1] != '\\'
    ensures ReplaceEscapedNewlines(a + b) == a + ReplaceEscapedNewlines(b)
    decreases |a|
  {
    if a == [] {
      assert a + b == b;
    } else {
      var ab := a + b;
      assert ab[0] == a[0] && ab[1..] == a[1..] + b;
      if |a| >= 2 {
        assert !(a[0] == '\\' && a[1] == 'n');
        assert ab[1] == a[1];
      }
      assert !(|ab| >= 2 && ab[0] == '\\' && ab[1] == 'n');
      assert !HasEscapedNewline(a[1..]) by {
        forall k | 0 <= k < |a[1..]| - 1
          ensures !(a[1..][k] == '\\' && a[1..][k + 1] == 'n')
        {
          assert a[1..][k] == a[k + 1] && a[1..][k + 1] == a[k + 2];
        }
      }
      ReplaceEscapedPrefix(a[1..], b);
    }
  }

  /** One match of `\\n`: the pair becomes a space and the text around it is
      kept. */
  lemma ReplaceEscapedPair(a: string, b: string)
    requires !HasEscapedNewline(a)
    requires a == [] || a[|a| - 1] != '\\'
    ensures ReplaceEscapedNewlines(a + "\\n" + b) == a + " " + ReplaceEscapedNewlines(b)
  {
    assert a + "\\n" + b == a + ("\\n" + b);
    ReplaceEscapedPrefix(a, "\\n" + b);
    ReplaceEscapedHead(b);
  }

  lemma ReplaceEscapedHead(b: string)
    ensures ReplaceEscapedNewlines("\\n" + b) == " " + ReplaceEscapedNewlines(b)
  {
    assert ("\\n" + b)[2..] == b;
  }

  /** Whether the two-character sequence backslash `n` occurs in `s`. */
  predicate HasEscapedNewline(s: string) {
    exists k :: 0 <= k < |s| - 1 && s[k] == '\\' && s[k + 1] == 'n'
  }

  /** `cleanText`: falsy cells become the empty string; otherwise markup is
      removed, escaped and real line breaks become spaces, and the result is
      trimmed. */
  function CleanText(c: Cell): (r: string)
    ensures !Truthy(c) ==> r == ""
    ensures '<' !in r && '\n' !in r && !HasEscapedNewline(r)
    ensures r == [] || (!IsSpace(r[0]) && !IsSpace(r[|r| - 1]))
  {
    if !Truthy(c) then ""
    else
      var noTags := StripTags(AsText(c));
      var spaced := ReplaceChar(ReplaceEscapedNewlines(noTags), '\n', ' ');
      assert '<' !in spaced && '\n' !in spaced by {
        assert forall k :: 0 <= k < |spaced| ==> spaced[k] != '\n';
      }
      assert !HasEscapedNewline(spaced) by {
        NoEscapedAfterReplaceChar(ReplaceEscapedNewlines(noTags));
      }
      NoEscapedInTrim(spaced);
      Trim(spaced)
  }

  lemma NoEscapedAfterReplaceChar(s: string)
    requires !HasEscapedNewline(s)
    ensures !HasEscapedNewline(ReplaceChar(s, '\n', ' '))
  {
    var r := ReplaceChar(s, '\n', ' ');
    forall k | 0 <= k < |r| - 1
      ensures !(r[k] == '\\' && r[k + 1] == 'n')
    {
      assert r[k] == '\\' ==> s[k] == '\\';
      assert r[k + 1] == 'n' ==> s[k + 1] == 'n';
    }
  }

  lemma NoEscapedInSlice(s: string, i: nat, j: nat)
    requires i <= j <= |s|
    requires !HasEscapedNewline(s)
    ensures !HasEscapedNewline(s[i..j])
  {
    var t := s[i..j];
    forall k | 0 <= k < |t| - 1
      ensures !(t[k] == '\\' && t[k + 1] == 'n')
    {
      assert t[k] == s[i + k] && t[k + 1] == s[i + k + 1];
    }
  }

  lemma NoEscapedInTrim(s: string)
    requires !HasEscapedNewline(s)
    ensures !HasEscapedNewline(Trim(s))
  {
    var l := TrimLeft(s);
    NoEscapedInSlice(s, |s| - |l|, |s|);
    assert l == s[|s| - |l|..|s|];
    NoEscapedInSlice(l, 0, |TrimRight(l)|);
  }

  /** Cleaning is idempotent: cleaning an already clean text changes nothing. */
  lemma CleanTextIdempotent(c: Cell)
    ensures CleanText(Str(CleanText(c))) == CleanText(c)
  {
    var r := CleanText(c);
    if r != [] {
      CleanTextOfClean(r);
    }
  }

  /** A text with no markup, no line break, no escaped line break and no
      white space at its ends is left as it is by `cleanText`. */
  lemma CleanTextOfClean(r: string)
    requires r != []
    requires '<' !in r && '\n' !in r && !HasEscapedNewline(r)
    requires !IsSpace(r[0]) && !IsSpace(r[|r| - 1])
    ensures CleanText(Str(r)) == r
  {
    StripTagsNoop(r);
    ReplaceEscapedNoop(r);
    assert ReplaceChar(r, '\n', ' ') == r;
    TrimNoop(r);
  }

  lemma StripTagsNoop(s: string)
    requires '<' !in s
    ensures StripTags(s) == s
  {
    if s != [] {
      assert '<' !in s[1..];
      StripTagsNoop(s[1..]);
    }
  }

  lemma ReplaceEscapedNoop(s: string)
    requires !HasEscapedNewline(s)
    ensures ReplaceEscapedNewlines(s) == s
  {
    if s != [] {
      forall k | 0 <= k < |s[1..]| - 1
        ensures !(s[1..][k] == '\\' && s[1..][k + 1] == 'n')
      {
        assert s[1..][k] == s[k + 1] && s[1..][k + 1] == s[k + 2];
      }
      ReplaceEscapedNoop(s[1..]);
      assert !(|s| >= 2 && s[0] == '\\' && s[1] == 'n');
    }
  }

  lemma TrimNoop(s: string)
    requires s == [] || (!IsSpace(s[0]) && !IsSpace(s[|s| - 1]))
    ensures Trim(s) == s
  {
  }

  // ---------------------------------------------------------------- formatDate

  /** `formatDate` on a date string: its first 10 characters; shorter
      strings, and the empty string, are returned as they are. */
  function FormatDate(d: string): (r: string)
    ensures |r| == if |d| >= 10 then 10 else |d|
    ensures r == d[..|r|]
  {
    if d == "" then "" else if |d| >= 10 then d[..10] else d
  }

  /** Formatting a formatted date changes nothing. */
  lemma FormatDateIdempotent(d: string)
    ensures FormatDate(FormatDate(d)) == FormatDate(d)
  {
  }
}
