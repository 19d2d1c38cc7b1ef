/** Text helpers that the service relies on: the parts of Apache Commons
    StringUtils it calls (remove, replace, deleteWhitespace, isBlank), Java's
    decimal rendering of integers and booleans, and a comma splitter that a
    downstream reader of the produced CSV line would apply. */
module Strings {

  /** java.lang.Character.isWhitespace: the Unicode space separators except the
      no-break ones (U+00A0, U+2007, U+202F), the line and paragraph separators,
      and the control characters U+0009..U+000D and U+001C..U+001F. */
  predicate IsWhitespace(c: char)
    ensures c == ' ' || c == '\t' || c == '\n' || c == '\r' ==> IsWhitespace(c)
    ensures c == '\U{A0}' || c == '\U{2007}' || c == '\U{202F}' ==> !IsWhitespace(c)
  {
    c == ' ' || ('\t' <= c <= '\r') || ('\U{1C}' <= c <= '\U{1F}') ||
    c == '\U{1680}' || ('\U{2000}' <= c <= '\U{2006}') || ('\U{2008}' <= c <= '\U{200A}') ||
    c == '\U{2028}' || c == '\U{2029}' || c == '\U{205F}' || c == '\U{3000}'
  }

  predicate IsNotWhitespace(c: char) {
    !IsWhitespace(c)
  }

  /** The characters of s that satisfy keep, in their original order. */
  function Filter(s: string, keep: char -> bool): (r: string)
    ensures |r| <= |s|
    ensures forall x :: x in r ==> keep(x) && x in s
  {
    if s == [] then [] else (if keep(s[0]) then [s[0]] else []) + Filter(s[1..], keep)
  }

  lemma {:induction false} FilterConcat(a: string, b: string, keep: char -> bool)
    ensures Filter(a + b, keep) == Filter(a, keep) + Filter(b, keep)
  {
    if a != [] {
      assert (a + b)[1..] == a[1..] + b;
      FilterConcat(a[1..], b, keep);
    } else {
      assert a + b == b;
    }
  }

  /** A kept character lands at the position given by the number of kept
      characters before it: the filter preserves order and drops nothing else. */
  lemma FilterAt(s: string, keep: char -> bool, i: nat)
    requires i < |s| && keep(s[i])
    ensures |Filter(s[..i], keep)| < |Filter(s, keep)|
    ensures Filter(s, keep)[|Filter(s[..i], keep)|] == s[i]
  {
    assert s == s[..i] + s[i..];
    FilterConcat(s[..i], s[i..], keep);
    assert s[i..][1..] == s[i + 1..];
  }

  /** Filtering a second time changes nothing. */
  lemma {:induction false} FilterIdempotent(s: string, keep: char -> bool)
    ensures Filter(Filter(s, keep), keep) == Filter(s, keep)
  {
    if s != [] {
      FilterIdempotent(s[1..], keep);
      var head := if keep(s[0]) then [s[0]] else [];
      FilterConcat(head, Filter(s[1..], keep), keep);
      if keep(s[0]) {
        assert Filter(head, keep) == [s[0]] + Filter([], keep);
      }
    }
  }

  predicate NotNewline(c: char) {
    c != '\n'
  }

  /** StringUtils.remove(s, "\n"): every line feed deleted. */
  function RemoveNewlines(s: string): (r: string)
    ensures '\n' !in r
  {
    Filter(s, NotNewline)
  }

  lemma {:induction false} RemoveNewlinesLength(s: string)
    ensures |RemoveNewlines(s)| == |s| - multiset(s)['\n']
  {
    if s != [] {
      RemoveNewlinesLength(s[1..]);
      assert s == [s[0]] + s[1..];
    }
  }

  /** A character occurs in s exactly when multiset(s) holds a copy of it. */
  lemma {:induction false} AbsentCount(s: string, x: char)
    ensures x !in s <==> multiset(s)[x] == 0
  {
    if s != [] {
      assert s == [s[0]] + s[1..];
      AbsentCount(s[1..], x);
    }
  }

  /** StringUtils.replace(s, [a], [b]) for one-character strings: every a becomes b. */
  function ReplaceChar(s: string, a: char, b: char): (r: string)
    ensures |r| == |s|
    ensures forall i :: 0 <= i < |s| ==> r[i] == if s[i] == a then b else s[i]
  {
    if s == [] then [] else [if s[0] == a then b else s[0]] + ReplaceChar(s[1..], a, b)
  }

  lemma ReplaceCharConcat(s: string, t: string, a: char, b: char)
    ensures ReplaceChar(s + t, a, b) == ReplaceChar(s, a, b) + ReplaceChar(t, a, b)
  {
  }

  /** StringUtils.deleteWhitespace: every character with Character.isWhitespace deleted. */
  function DeleteWhitespace(s: string): (r: string)
    ensures forall c :: c in r ==> !IsWhitespace(c)
  {
    Filter(s, IsNotWhitespace)
  }

  /** Whitespace deletion drops the whitespace characters and only them: with
      FilterAt, the result is the non-whitespace characters of s in order. */
  lemma {:induction false} DeleteWhitespaceLength(s: string)
    ensures |DeleteWhitespace(s)| == |s| - |Filter(s, IsWhitespace)|
  {
    if s != [] {
      DeleteWhitespaceLength(s[1..]);
    }
  }

  /** StringUtils.isBlank on a non-null string: empty or whitespace only. */
  predicate IsBlank(s: string) {
    forall i :: 0 <= i < |s| ==> IsWhitespace(s[i])
  }

  /** A string keeps something after whitespace deletion exactly when it is not blank. */
  lemma {:induction false} DeleteWhitespaceEmpty(s: string)
    ensures DeleteWhitespace(s) == [] <==> IsBlank(s)
  {
    if s != [] {
      DeleteWhitespaceEmpty(s[1..]);
      if IsBlank(s) {
        assert IsBlank(s[1..]) by {
          forall i | 0 <= i < |s[1..]| ensures IsWhitespace(s[1..][i]) {
            assert s[1..][i] == s[i + 1];
          }
        }
      } else if !IsWhitespace(s[0]) {
        assert s[0] in DeleteWhitespace(s);
      } else {
        var k :| 0 <= k < |s| && !IsWhitespace(s[k]);
        assert s[1..][k - 1] == s[k];
      }
    }
  }

  function Digit(d: nat): (c: char)
    requires d < 10
    ensures '0' <= c <= '9' && c as int - '0' as int == d
  {
    ('0' as int + d) as char
  }

  /** Decimal digits of n, most significant first, without leading zeros. */
  function NatDigits(n: nat): (r: string)
    ensures |r| >= 1
    ensures forall i :: 0 <= i < |r| ==> '0' <= r[i] <= '9'
    ensures r[0] == '0' ==> n == 0
  {
    if n < 10 then [Digit(n)] else NatDigits(n / 10) + [Digit(n % 10)]
  }

  /** Long.toString / Integer.toString, which StringBuilder.append uses for numbers. */
  function DecimalString(n: int): (r: string)
    ensures |r| >= 1
    ensures forall i :: 0 <= i < |r| ==> r[i] == '-' || '0' <= r[i] <= '9'
  {
    if n < 0 then "-" + NatDigits(-n) else NatDigits(n)
  }

  /** Decimal text holds neither a comma nor a line feed. */
  lemma DecimalNoSeparator(n: int)
    ensures ',' !in DecimalString(n) && '\n' !in DecimalString(n)
  {
  }

  /** The value a reader of the line gives a digit string. */
  function ParseNat(s: string): int {
    if s == [] then 0 else ParseNat(s[..|s| - 1]) * 10 + (s[|s| - 1] as int - '0' as int)
  }

  function ParseDecimal(s: string): int {
    if |s| > 0 && s[0] == '-' then -ParseNat(s[1..]) else ParseNat(s)
  }

  lemma {:induction false} ParseNatDigits(n: nat)
    ensures ParseNat(NatDigits(n)) == n
  {
    if n >= 10 {
      ParseNatDigits(n / 10);
      var r := NatDigits(n / 10) + [Digit(n % 10)];
      assert r[..|r| - 1] == NatDigits(n / 10);
    }
  }

  /** Reading a rendered integer back gives the integer. */
  lemma ParseDecimalString(n: int)
    ensures ParseDecimal(DecimalString(n)) == n
  {
    if n < 0 {
      ParseNatDigits(-n);
      assert DecimalString(n)[1..] == NatDigits(-n);
    } else {
      ParseNatDigits(n);
    }
  }

  /** StringBuilder.append(boolean). */
  function BoolString(b: bool): (r: string)
    ensures ',' !in r && '\n' !in r
    ensures |r| == if b then 4 else 5
  {
    if b then "true" else "false"
  }

  /** cols[0] + [d] + cols[1] + ... + [d] + cols[|cols| - 1], built left to right
      as successive StringBuilder appends build it. */
  function Join(cols: seq<string>, d: char): string
    requires |cols| >= 1
  {
    if |cols| == 1 then cols[0] else Join(cols[..|cols| - 1], d) + [d] + cols[|cols| - 1]
  }

  lemma JoinSnoc(cols: seq<string>, x: string, d: char)
    requires |cols| >= 1
    ensures Join(cols + [x], d) == Join(cols, d) + [d] + x
  {
    assert (cols + [x])[..|cols|] == cols;
  }

  /** The fields a CSV reader sees when it cuts s at every d (no quoting). */
  function Split(s: string, d: char): (r: seq<string>)
    ensures |r| >= 1
  {
    if s == [] then [""]
    else if s[0] == d then [""] + Split(s[1..], d)
    else var rest := Split(s[1..], d); [[s[0]] + rest[0]] + rest[1..]
  }

  lemma {:induction false} SplitPlain(a: string, d: char)
    requires d !in a
    ensures Split(a, d) == [a]
  {
    if a != [] {
      SplitPlain(a[1..], d);
      assert [a[0]] + a[1..] == a;
    }
  }

  lemma {:induction false} SplitSnoc(a: string, b: string, d: char)
    requires d !in b
    ensures Split(a + [d] + b, d) == Split(a, d) + [b]
  {
    if a == [] {
      assert a + [d] + b == [d] + b;
      assert ([d] + b)[1..] == b;
      SplitPlain(b, d);
    } else {
      assert (a + [d] + b)[1..] == a[1..] + [d] + b;
      SplitSnoc(a[1..], b, d);
    }
  }

  /** Splitting a join whose columns hold no delimiter gives the columns back. */
  lemma {:induction false} SplitJoin(cols: seq<string>, d: char)
    requires |cols| >= 1
    requires forall i :: 0 <= i < |cols| ==> d !in cols[i]
    ensures Split(Join(cols, d), d) == cols
  {
    if |cols| == 1 {
      SplitPlain(cols[0], d);
    } else {
      var init := cols[..|cols| - 1];
      SplitJoin(init, d);
      SplitSnoc(Join(init, d), cols[|cols| - 1], d);
      assert init + [cols[|cols| - 1]] == cols;
    }
  }

  /** A join holds one delimiter per gap plus those inside the columns. */
  lemma {:induction false} JoinCount(cols: seq<string>, d: char, c: char)
    requires |cols| >= 1
    ensures multiset(Join(cols, d))[c]
         == (if c == d then |cols| - 1 else 0) + SumCount(cols, c)
  {
    if |cols| > 1 {
      var init := cols[..|cols| - 1];
      var last := cols[|cols| - 1];
      var j := Join(init, d);
      JoinCount(init, d, c);
      SumCountSnoc(init, last, c);
      assert init + [last] == cols;
      assert multiset(j + [d] + last) == multiset(j) + multiset([d]) + multiset(last);
      assert multiset([d])[c] == if c == d then 1 else 0;
    }
  }

  /** Total number of c over all strings in cols. */
  function SumCount(cols: seq<string>, c: char): nat {
    if cols == [] then 0 else multiset(cols[0])[c] + SumCount(cols[1..], c)
  }

  lemma {:induction false} SumCountZero(cols: seq<string>, c: char)
    requires forall i :: 0 <= i < |cols| ==> c !in cols[i]
    ensures SumCount(cols, c) == 0
  {
    if cols != [] {
      AbsentCount(cols[0], c);
      SumCountZero(cols[1..], c);
    }
  }

  lemma {:induction false} SumCountSnoc(cols: seq<string>, x: string, c: char)
    ensures SumCount(cols + [x], c) == SumCount(cols, c) + multiset(x)[c]
  {
    if cols != [] {
      assert (cols + [x])[1..] == cols[1..] + [x];
      SumCountSnoc(cols[1..], x, c);
    } else {
      assert ([] + [x])[1..] == [];
    }
  }
}
