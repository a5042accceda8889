/**
 * The few functions of Go's `strings`, `strconv` and `unicode` packages that
 * the dispatchers and the code generator rely on, defined on `seq<char>`.
 *
 * Letter case is ASCII only; `unicode.IsSpace` is given in full.
 */
module GoText {

  // ---------------------------------------------------------------- characters

  /** unicode.IsSpace: the White_Space property of Unicode. */
  predicate IsSpace(c: char)
  {
    var n := c as int;
    n == 0x20 || 0x09 <= n <= 0x0D || n == 0x85 || n == 0xA0 || n == 0x1680
    || 0x2000 <= n <= 0x200A || n == 0x2028 || n == 0x2029 || n == 0x202F
    || n == 0x205F || n == 0x3000
  }

  predicate IsLower(c: char) { 'a' <= c <= 'z' }
  predicate IsUpper(c: char) { 'A' <= c <= 'Z' }
  predicate IsDigit(c: char) { '0' <= c <= '9' }

  /** unicode.ToUpper restricted to ASCII: other characters are returned as they are. */
  function UpperChar(c: char): (u: char)
    ensures IsLower(c) ==> IsUpper(u) && u as int == c as int - 32
    ensures !IsLower(c) ==> u == c
  {
    if IsLower(c) then (c as int - 32) as char else c
  }

  /** unicode.ToLower restricted to ASCII. */
  function LowerChar(c: char): (l: char)
    ensures IsUpper(c) ==> IsLower(l) && l as int == c as int + 32
    ensures !IsUpper(c) ==> l == c
  {
    if IsUpper(c) then (c as int + 32) as char else c
  }

  /** strings.ToUpper (ASCII). */
  function ToUpper(s: string): (r: string)
    ensures |r| == |s|
    ensures forall i :: 0 <= i < |s| ==> r[i] == UpperChar(s[i])
  {
    if s == [] then [] else [UpperChar(s[0])] + ToUpper(s[1..])
  }

  /** strings.ToLower (ASCII). */
  function ToLower(s: string): (r: string)
    ensures |r| == |s|
    ensures forall i :: 0 <= i < |s| ==> r[i] == LowerChar(s[i])
  {
    if s == [] then [] else [LowerChar(s[0])] + ToLower(s[1..])
  }

  /**
   * The word-separator test of strings.Title for ASCII: anything that is not
   * a letter, a digit or '_' separates words.  Non-ASCII characters are taken
   * as letters.
   */
  predicate IsTitleSeparator(c: char)
  {
    c as int < 0x80 && !(IsLower(c) || IsUpper(c) || IsDigit(c) || c == '_')
  }

  /** strings.Title from the given previous character (Title starts as if after a space). */
  function TitleAfter(prev: char, s: string): (r: string)
    ensures |r| == |s|
    ensures forall i :: 0 <= i < |s| ==>
      r[i] == (if IsTitleSeparator(if i == 0 then prev else s[i - 1]) then UpperChar(s[i]) else s[i])
    decreases s
  {
    if s == [] then []
    else [if IsTitleSeparator(prev) then UpperChar(s[0]) else s[0]] + TitleAfter(s[0], s[1..])
  }

  /** strings.Title (ASCII): the first letter of every word is upper-cased. */
  function Title(s: string): string
  {
    TitleAfter(' ', s)
  }

  // ---------------------------------------------------------------- trimming

  function LeadingSpace(s: string): (n: nat)
    ensures n <= |s|
    ensures forall k :: 0 <= k < n ==> IsSpace(s[k])
    ensures n < |s| ==> !IsSpace(s[n])
  {
    if s == [] || !IsSpace(s[0]) then 0 else 1 + LeadingSpace(s[1..])
  }

  function TrailingSpace(s: string): (n: nat)
    ensures n <= |s|
    ensures forall k :: |s| - n <= k < |s| ==> IsSpace(s[k])
    ensures n < |s| ==> !IsSpace(s[|s| - 1 - n])
  {
    if s == [] || !IsSpace(s[|s| - 1]) then 0 else 1 + TrailingSpace(s[..|s| - 1])
  }

  /** strings.TrimSpace: s without its leading and trailing white space. */
  function TrimSpace(s: string): (r: string)
    ensures |r| <= |s|
    ensures r != [] ==> !IsSpace(r[0]) && !IsSpace(r[|r| - 1])
  {
    var t := s[LeadingSpace(s)..];
    t[..|t| - TrailingSpace(t)]
  }

  /** Trimming a string that neither starts nor ends in white space leaves it as it is. */
  lemma TrimSpaceKeepsTrimmed(s: string)
    requires s != [] ==> !IsSpace(s[0]) && !IsSpace(s[|s| - 1])
    ensures TrimSpace(s) == s
  {
  }

  /** strings.TrimSpace is idempotent. */
  lemma TrimSpaceIdempotent(s: string)
    ensures TrimSpace(TrimSpace(s)) == TrimSpace(s)
  {
    TrimSpaceKeepsTrimmed(TrimSpace(s));
  }

  // ---------------------------------------------------------------- splitting

  function CountChar(s: string, c: char): nat
  {
    if s == [] then 0 else (if s[0] == c then 1 else 0) + CountChar(s[1..], c)
  }

  /** strings.Join with a one-character separator. */
  function Join(parts: seq<string>, sep: char): string
    requires |parts| > 0
  {
    if |parts| == 1 then parts[0] else parts[0] + [sep] + Join(parts[1..], sep)
  }

  /**
   * strings.Split with a one-character separator: the pieces between the
   * separators, one more piece than there are separators ("" gives [""]).
   */
  function Split(s: string, sep: char): (parts: seq<string>)
    ensures |parts| == CountChar(s, sep) + 1
    ensures forall i :: 0 <= i < |parts| ==> sep !in parts[i]
    ensures Join(parts, sep) == s
  {
    if s == [] then [[]]
    else
      var rest := Split(s[1..], sep);
      if s[0] == sep then
        assert Join([[]] + rest, sep) == [] + [sep] + Join(rest, sep) by {
          assert ([[]] + rest)[1..] == rest;
        }
        [[]] + rest
      else
        var parts := [[s[0]] + rest[0]] + rest[1..];
        assert parts[1..] == rest[1..];
        assert Join(parts, sep) == s by {
          if |rest| > 1 {
            assert Join(rest, sep) == rest[0] + [sep] + Join(rest[1..], sep);
          }
        }
        parts
  }

  /** strings.Join undoes strings.Split when the pieces contain no separator. */
  lemma {:induction false} SplitJoin(parts: seq<string>, sep: char)
    requires |parts| > 0
    requires forall i :: 0 <= i < |parts| ==> sep !in parts[i]
    ensures Split(Join(parts, sep), sep) == parts
  {
    if |parts| == 1 {
      SplitNoSeparator(parts[0], sep);
    } else {
      SplitJoin(parts[1..], sep);
      SplitConcat(parts[0], Join(parts[1..], sep), sep);
      assert [parts[0]] + parts[1..] == parts;
    }
  }

  lemma {:induction false} SplitNoSeparator(s: string, sep: char)
    requires sep !in s
    ensures Split(s, sep) == [s]
  {
    if s != [] {
      SplitNoSeparator(s[1..], sep);
    }
  }

  lemma {:induction false} SplitConcat(a: string, b: string, sep: char)
    requires sep !in a
    ensures Split(a + [sep] + b, sep) == [a] + Split(b, sep)
  {
    if a == [] {
      assert ([] + [sep] + b)[1..] == b;
    } else {
      SplitConcat(a[1..], b, sep);
      var s := a + [sep] + b;
      assert s[0] == a[0] && s[1..] == a[1..] + [sep] + b;
      var rest := Split(s[1..], sep);
      assert rest[0] == a[1..] && rest[1..] == Split(b, sep);
      assert [a[0]] + a[1..] == a;
    }
  }

  // ---------------------------------------------------------------- searching

  /** strings.Contains. */
  predicate Contains(s: string, sub: string)
  {
    sub <= s || (s != [] && Contains(s[1..], sub))
  }

  /** strings.Index: the first position at which sub occurs, or -1. */
  function Index(s: string, sub: string): (i: int)
    ensures i >= -1
    ensures i >= 0 ==> i <= |s| - |sub| && sub <= s[i..]
    ensures i >= 0 ==> forall j :: 0 <= j < i ==> !(sub <= s[j..])
    ensures i >= 0 <==> Contains(s, sub)
  {
    if sub <= s then 0
    else if s == [] then -1
    else
      var j := Index(s[1..], sub);
      assert forall k :: 1 <= k <= |s| ==> s[k..] == s[1..][k - 1..];
      if j < 0 then -1 else j + 1
  }

  /** A string occurring inside a piece occurs in any text built around that piece. */
  lemma {:induction false} ContainsInside(a: string, b: string, c: string, sub: string)
    requires Contains(b, sub)
    ensures Contains(a + b + c, sub)
  {
    if a == [] {
      ContainsPrefixOf(b, c, sub);
      assert a + b + c == b + c;
    } else {
      ContainsInside(a[1..], b, c, sub);
      assert (a + b + c)[1..] == a[1..] + b + c;
    }
  }

  lemma {:induction false} ContainsPrefixOf(b: string, c: string, sub: string)
    requires Contains(b, sub)
    ensures Contains(b + c, sub)
  {
    if sub <= b {
      assert sub <= b + c;
    } else {
      ContainsPrefixOf(b[1..], c, sub);
      assert (b + c)[1..] == b[1..] + c;
    }
  }

  /** Every string contains itself. */
  lemma ContainsSelf(s: string)
    ensures Contains(s, s)
  {
  }

  /** strings.Replace(s, pat, rep, 1): only the first occurrence of pat is replaced. */
  function ReplaceFirst(s: string, pat: string, rep: string): (r: string)
    ensures !Contains(s, pat) ==> r == s
    ensures Contains(s, pat) ==>
      exists i :: 0 <= i <= |s| - |pat| && s[i..i + |pat|] == pat && r == s[..i] + rep + s[i + |pat|..]
  {
    var i := Index(s, pat);
    if i < 0 then s
    else
      assert s[i..i + |pat|] == pat;
      s[..i] + rep + s[i + |pat|..]
  }

  // ---------------------------------------------------------------- integers

  const MinInt64: int := -0x8000_0000_0000_0000
  const MaxInt64: int := 0x7FFF_FFFF_FFFF_FFFF

  predicate AllDigits(s: string)
  {
    forall i :: 0 <= i < |s| ==> IsDigit(s[i])
  }

  /** The value of a string of decimal digits. */
  function DigitsValue(s: string): nat
    requires AllDigits(s)
  {
    if s == [] then 0 else DigitsValue(s[..|s| - 1]) * 10 + (s[|s| - 1] as int - '0' as int)
  }

  /** The digits of s once an optional leading '+' or '-' is taken off. */
  function Unsigned(s: string): string
  {
    if |s| > 0 && (s[0] == '+' || s[0] == '-') then s[1..] else s
  }

  /** What strconv.Atoi parses: an optional sign followed by one or more decimal digits. */
  predicate IsDecimal(s: string)
  {
    |Unsigned(s)| > 0 && AllDigits(Unsigned(s))
  }

  function Clamp64(v: int): int
  {
    if v < MinInt64 then MinInt64 else if v > MaxInt64 then MaxInt64 else v
  }

  /**
   * strconv.Atoi with its error discarded (`n, _ := strconv.Atoi(s)`), for a
   * 64-bit `int`: a syntax error gives 0 and an out-of-range number gives the
   * bound of its sign, as strconv documents.
   */
  function Atoi(s: string): (n: int)
    ensures MinInt64 <= n <= MaxInt64
    ensures !IsDecimal(s) ==> n == 0
  {
    if !IsDecimal(s) then 0
    else
      var v: int := DigitsValue(Unsigned(s));
      Clamp64(if s[0] == '-' then -v else v)
  }

  function DigitChar(d: nat): (c: char)
    requires d < 10
    ensures IsDigit(c) && c as int - '0' as int == d
  {
    ('0' as int + d) as char
  }

  /** strconv.Itoa for naturals: the shortest decimal rendering. */
  function NatDecimal(n: nat): (s: string)
    ensures |s| > 0 && AllDigits(s)
  {
    if n < 10 then [DigitChar(n)] else NatDecimal(n / 10) + [DigitChar(n % 10)]
  }

  /** strconv.Itoa. */
  function Decimal(n: int): string
  {
    if n < 0 then "-" + NatDecimal(-n) else NatDecimal(n)
  }

  lemma {:induction false} NatDecimalValue(n: nat)
    ensures DigitsValue(NatDecimal(n)) == n
  {
    if n >= 10 {
      var s := NatDecimal(n);
      assert s[..|s| - 1] == NatDecimal(n / 10);
      NatDecimalValue(n / 10);
    }
  }

  /** strconv.Atoi reads back every in-range number strconv.Itoa writes. */
  lemma AtoiDecimal(n: int)
    requires MinInt64 <= n <= MaxInt64
    ensures Atoi(Decimal(n)) == n
  {
    var s := Decimal(n);
    if n < 0 {
      assert Unsigned(s) == NatDecimal(-n);
      NatDecimalValue(-n);
    } else {
      NatDecimalValue(n);
    }
  }

  /** strconv.Atoi rejects the empty string and text that is not a number, giving 0. */
  lemma AtoiExamples()
    ensures Atoi("42") == 42
    ensures Atoi("-7") == -7
    ensures Atoi("+7") == 7
    ensures Atoi("") == 0
    ensures Atoi("abc") == 0
    ensures Atoi("4x") == 0
    ensures Atoi("-") == 0
  {
    assert IsDecimal("42") && DigitsValue("42") == 42 by {
      assert "42"[..1] == "4";
    }
    assert Unsigned("-7") == "7";
    assert Unsigned("+7") == "7";
    assert !IsDecimal("4x") by { assert !IsDigit("4x"[1]); }
    assert !IsDecimal("abc") by { assert !IsDigit("abc"[0]); }
  }

  // ---------------------------------------------------------------- misc

  /** n copies of s, one after the other. */
  function Repeat(s: string, n: nat): (r: string)
    ensures |r| == n * |s|
  {
    if n == 0 then [] else s + Repeat(s, n - 1)
  }
}
