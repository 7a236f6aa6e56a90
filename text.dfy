/**
  The pieces of Rust's `str` and integer formatting that the core relies on:
  `trim`, `starts_with`, `ends_with`, and the decimal `Display` of an unsigned
  integer.
*/
module Text {

  /** Rust's `char::is_whitespace`: the Unicode White_Space property. */
  predicate IsWhitespace(c: char) {
    || c == ' '
    || ('\t' <= c <= '\r')
    || c == '\U{85}'
    || c == '\U{A0}'
    || c == '\U{1680}'
    || ('\U{2000}' <= c <= '\U{200A}')
    || c == '\U{2028}'
    || c == '\U{2029}'
    || c == '\U{202F}'
    || c == '\U{205F}'
    || c == '\U{3000}'
  }

  predicate AllWhitespace(s: string) {
    forall i :: 0 <= i < |s| ==> IsWhitespace(s[i])
  }

  /** `str::trim_start`: drops the leading whitespace, and only that. */
  function TrimStart(s: string): (r: string)
    ensures |r| <= |s| && r == s[|s| - |r|..]
    ensures r != [] ==> !IsWhitespace(r[0])
  {
    if s != [] && IsWhitespace(s[0]) then TrimStart(s[1..]) else s
  }

  /** `str::trim_end`: drops the trailing whitespace, and only that. */
  function TrimEnd(s: string): (r: string)
    ensures |r| <= |s| && r == s[..|r|]
    ensures r != [] ==> !IsWhitespace(r[|r| - 1])
  {
    if s != [] && IsWhitespace(s[|s| - 1]) then TrimEnd(s[..|s| - 1]) else s
  }

  /** `str::trim`: the line without whitespace at either end. */
  function Trim(s: string): (r: string)
    ensures |r| <= |s|
    ensures r != [] ==> !IsWhitespace(r[0]) && !IsWhitespace(r[|r| - 1])
  {
    TrimEnd(TrimStart(s))
  }

  predicate StartsWith(s: string, prefix: string) {
    |prefix| <= |s| && s[..|prefix|] == prefix
  }

  predicate EndsWith(s: string, suffix: string) {
    |suffix| <= |s| && s[|s| - |suffix|..] == suffix
  }

  /** What `trim_start` drops is whitespace. */
  lemma {:induction false} TrimStartDropsWhitespace(s: string)
    ensures AllWhitespace(s[..|s| - |TrimStart(s)|])
  {
    if s != [] && IsWhitespace(s[0]) {
      TrimStartDropsWhitespace(s[1..]);
      var k := |s| - |TrimStart(s)|;
      forall i | 0 <= i < k ensures IsWhitespace(s[..k][i]) {
        if i > 0 {
          assert s[..k][i] == s[1..][..k - 1][i - 1];
        }
      }
    }
  }

  lemma {:induction false} TrimStartPadded(pad: string, s: string)
    requires AllWhitespace(pad)
    ensures TrimStart(pad + s) == TrimStart(s)
  {
    if pad != [] {
      assert TrimStart(pad + s) == TrimStart(pad[1..] + s) by {
        var x := pad + s;
        assert x[0] == pad[0];
        assert x[1..] == pad[1..] + s;
      }
      assert AllWhitespace(pad[1..]) by {
        forall i | 0 <= i < |pad[1..]| ensures IsWhitespace(pad[1..][i]) {
          assert pad[1..][i] == pad[i + 1];
        }
      }
      TrimStartPadded(pad[1..], s);
    } else {
      assert pad + s == s;
    }
  }

  lemma {:induction false} TrimStartBlank(s: string)
    requires AllWhitespace(s)
    ensures TrimStart(s) == []
  {
    if s != [] {
      TrimStartBlank(s[1..]);
    }
  }

  lemma TrimStartThenPadding(s: string, pad: string)
    requires AllWhitespace(pad)
    ensures TrimStart(s + pad) == if TrimStart(s) == [] then [] else TrimStart(s) + pad
  {
    var t := TrimStart(s);
    var k := |s| - |t|;
    TrimStartDropsWhitespace(s);
    assert s == s[..k] + t;
    assert s + pad == s[..k] + (t + pad);
    TrimStartPadded(s[..k], t + pad);
    if t == [] {
      TrimStartBlank(pad);
    } else {
      assert TrimStart(t + pad) == t + pad;
    }
  }

  lemma {:induction false} TrimEndPadded(s: string, pad: string)
    requires AllWhitespace(pad)
    ensures TrimEnd(s + pad) == TrimEnd(s)
  {
    if pad != [] {
      var rest := pad[..|pad| - 1];
      assert TrimEnd(s + pad) == TrimEnd(s + rest) by {
        var x := s + pad;
        assert x[|x| - 1] == pad[|pad| - 1];
        assert x[..|x| - 1] == s + rest;
      }
      assert AllWhitespace(rest) by {
        forall i | 0 <= i < |rest| ensures IsWhitespace(rest[i]) {
          assert rest[i] == pad[i];
        }
      }
      TrimEndPadded(s, rest);
    } else {
      assert s + pad == s;
    }
  }

  /** Whitespace added around a line does not change what `trim` yields. */
  lemma TrimIgnoresPadding(before: string, s: string, after: string)
    requires AllWhitespace(before) && AllWhitespace(after)
    ensures Trim(before + s + after) == Trim(s)
  {
    assert before + s + after == before + (s + after);
    TrimStartPadded(before, s + after);
    TrimStartThenPadding(s, after);
    if TrimStart(s) != [] {
      TrimEndPadded(TrimStart(s), after);
    }
  }

  /** A string with no whitespace at either end is its own trim. */
  lemma TrimOfTrimmed(s: string)
    requires s != [] && !IsWhitespace(s[0]) && !IsWhitespace(s[|s| - 1])
    ensures Trim(s) == s
  {
    assert TrimStart(s) == s;
  }

  predicate IsDigit(c: char) {
    '0' <= c <= '9'
  }

  function DigitChar(d: nat): (c: char)
    requires d < 10
    ensures IsDigit(c) && (c == '0' <==> d == 0)
  {
    (48 + d) as char
  }

  /** The decimal `Display` of an unsigned integer: digits only, no leading zero. */
  function Decimal(n: nat): (r: string)
    ensures r != [] && forall i :: 0 <= i < |r| ==> IsDigit(r[i])
    ensures r[|r| - 1] == DigitChar(n % 10)
    ensures |r| >= 2 <==> n >= 10
    ensures r[0] == '0' ==> n == 0
  {
    if n < 10 then [DigitChar(n)] else Decimal(n / 10) + [DigitChar(n % 10)]
  }

  /** The number a string of decimal digits reads as, most significant digit first. */
  function DigitsValue(s: string): nat
    requires forall i :: 0 <= i < |s| ==> IsDigit(s[i])
  {
    if s == [] then 0
    else
      assert IsDigit(s[|s| - 1]);
      DigitsValue(s[..|s| - 1]) * 10 + (s[|s| - 1] as int - '0' as int)
  }

  /** `Decimal` renders the number itself: its digits read back as `n`. */
  lemma {:induction false} DecimalValue(n: nat)
    ensures DigitsValue(Decimal(n)) == n
  {
    var r := Decimal(n);
    if n >= 10 {
      DecimalValue(n / 10);
      assert r[..|r| - 1] == Decimal(n / 10);
    }
  }

  /** Different numbers render differently. */
  lemma DecimalInjective(m: nat, n: nat)
    ensures Decimal(m) == Decimal(n) <==> m == n
  {
    DecimalValue(m);
    DecimalValue(n);
  }
}
