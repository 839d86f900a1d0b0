/** The string operations of the Python runtime that the catalog forms use:
    `str.strip()`, `str.lower()`, the substring test `q in t`, and `str(n)`
    for integers. */
module Text {

  /** `c.isspace()` in Python: the characters `str.strip()` removes. */
  predicate IsSpace(c: char)
  {
    || ('\t' <= c <= '\r')
    || ('\U{1C}' <= c <= '\U{1F}')
    || c == ' '
    || c == '\U{85}'
    || c == '\U{A0}'
    || c == '\U{1680}'
    || ('\U{2000}' <= c <= '\U{200A}')
    || c == '\U{2028}'
    || c == '\U{2029}'
    || c == '\U{202F}'
    || c == '\U{205F}'
    || c == '\U{3000}'
  }

  predicate AllSpace(t: string)
  {
    forall k :: 0 <= k < |t| ==> IsSpace(t[k])
  }

  /** The number of whitespace characters `s` starts with
      (`LeadingSpacesSpec` says which). */
  function LeadingSpaces(s: string): (n: nat)
    ensures n <= |s|
  {
    if s == [] || !IsSpace(s[0]) then 0 else 1 + LeadingSpaces(s[1..])
  }

  /** The number of whitespace characters `s` ends with
      (`TrailingSpacesSpec` says which). */
  function TrailingSpaces(s: string): (n: nat)
    ensures n <= |s|
  {
    if s == [] || !IsSpace(s[|s| - 1]) then 0 else 1 + TrailingSpaces(s[..|s| - 1])
  }

  /** `LeadingSpaces` counts the whitespace prefix, and no more. */
  lemma {:induction false} LeadingSpacesSpec(s: string)
    ensures AllSpace(s[..LeadingSpaces(s)])
    ensures LeadingSpaces(s) < |s| ==> !IsSpace(s[LeadingSpaces(s)])
  {
    if s != [] && IsSpace(s[0]) {
      var t := s[1..];
      LeadingSpacesSpec(t);
      var n := LeadingSpaces(t);
      assert s[..1 + n] == [s[0]] + t[..n];
      assert 1 + n < |s| ==> s[1 + n] == t[n];
    }
  }

  /** `TrailingSpaces` counts the whitespace suffix, and no more. */
  lemma {:induction false} TrailingSpacesSpec(s: string)
    ensures AllSpace(s[|s| - TrailingSpaces(s)..])
    ensures TrailingSpaces(s) < |s| ==> !IsSpace(s[|s| - 1 - TrailingSpaces(s)])
  {
    if s != [] && IsSpace(s[|s| - 1]) {
      var t := s[..|s| - 1];
      TrailingSpacesSpec(t);
      var n := TrailingSpaces(t);
      assert s[|s| - 1 - n..] == t[|t| - n..] + [s[|s| - 1]];
      assert n + 1 < |s| ==> s[|s| - 2 - n] == t[|t| - 1 - n];
    }
  }

  /** `s.strip()`: `s` with its leading and trailing whitespace removed
      (`StripSpec` and `StripUnique` say what that means). */
  function Strip(s: string): string
  {
    var i := LeadingSpaces(s);
    var t := s[i..];
    t[..|t| - TrailingSpaces(t)]
  }

  /** The result of `strip()` sits in `s` right after the leading
      whitespace, only whitespace follows it, and it neither starts nor ends
      with whitespace. */
  lemma StripSpec(s: string)
    ensures LeadingSpaces(s) + |Strip(s)| <= |s|
    ensures Strip(s) == s[LeadingSpaces(s)..LeadingSpaces(s) + |Strip(s)|]
    ensures AllSpace(s[..LeadingSpaces(s)]) && AllSpace(s[LeadingSpaces(s) + |Strip(s)|..])
    ensures Strip(s) == [] || (!IsSpace(Strip(s)[0]) && !IsSpace(Strip(s)[|Strip(s)| - 1]))
  {
    LeadingSpacesSpec(s);
    StripSlice(s);
    StripTail(s);
    StripEnds(s);
  }

  lemma StripSlice(s: string)
    ensures LeadingSpaces(s) + |Strip(s)| <= |s|
    ensures Strip(s) == s[LeadingSpaces(s)..LeadingSpaces(s) + |Strip(s)|]
  {
    var i := LeadingSpaces(s);
    var t := s[i..];
    var m := t[..|t| - TrailingSpaces(t)];
    assert Strip(s) == m;
    assert s[i..i + |m|] == m;
  }

  lemma StripTail(s: string)
    ensures LeadingSpaces(s) + |Strip(s)| <= |s|
    ensures AllSpace(s[LeadingSpaces(s) + |Strip(s)|..])
  {
    var i := LeadingSpaces(s);
    var t := s[i..];
    var n := TrailingSpaces(t);
    TrailingSpacesSpec(t);
    assert |Strip(s)| == |t| - n;
    assert s[i + (|t| - n)..] == t[|t| - n..];
  }

  lemma StripEnds(s: string)
    ensures Strip(s) == [] || (!IsSpace(Strip(s)[0]) && !IsSpace(Strip(s)[|Strip(s)| - 1]))
  {
    var i := LeadingSpaces(s);
    var t := s[i..];
    var n := TrailingSpaces(t);
    var m := t[..|t| - n];
    assert Strip(s) == m;
    LeadingSpacesSpec(s);
    TrailingSpacesSpec(t);
    if m != [] {
      assert m[0] == s[i];
      assert m[|m| - 1] == t[|t| - 1 - n];
    }
  }

  lemma {:induction false} LeadingSpacesPadded(a: string, t: string)
    requires AllSpace(a) && (t == [] || !IsSpace(t[0]))
    ensures LeadingSpaces(a + t) == |a|
  {
    if a != [] {
      assert (a + t)[1..] == a[1..] + t;
      LeadingSpacesPadded(a[1..], t);
    } else {
      assert a + t == t;
    }
  }

  lemma {:induction false} TrailingSpacesPadded(t: string, b: string)
    requires AllSpace(b) && (t == [] || !IsSpace(t[|t| - 1]))
    ensures TrailingSpaces(t + b) == |b|
  {
    if b != [] {
      assert (t + b)[..|t + b| - 1] == t + b[..|b| - 1];
      TrailingSpacesPadded(t, b[..|b| - 1]);
    } else {
      assert t + b == t;
    }
  }

  /** Strip is determined by its contract: whenever `s` is whitespace, then
      `m`, then whitespace, and `m` has no whitespace at either end, `m` is
      what `s.strip()` returns. */
  lemma StripUnique(s: string, a: string, m: string, b: string)
    requires s == a + m + b && AllSpace(a) && AllSpace(b)
    requires m == [] || (!IsSpace(m[0]) && !IsSpace(m[|m| - 1]))
    ensures Strip(s) == m
  {
    if m == [] {
      assert s == (a + b) + [];
      assert AllSpace(a + b) by {
        forall k | 0 <= k < |a + b| ensures IsSpace((a + b)[k]) {
          if k >= |a| { assert (a + b)[k] == b[k - |a|]; }
        }
      }
      LeadingSpacesPadded(a + b, []);
    } else {
      assert s == a + (m + b);
      LeadingSpacesPadded(a, m + b);
      assert s[|a|..] == m + b;
      TrailingSpacesPadded(m, b);
      assert (m + b)[..|m|] == m;
    }
  }

  /** Stripping twice is stripping once. */
  lemma StripIdempotent(s: string)
    ensures Strip(Strip(s)) == Strip(s)
  {
    StripSpec(s);
    var r := Strip(s);
    assert r == [] + r + [];
    StripUnique(r, [], r, []);
  }

  /** `c.lower()` for the ASCII letters; every other character is kept. */
  function LowerChar(c: char): char
  {
    if 'A' <= c <= 'Z' then (c as int + 32) as char else c
  }

  /** `s.lower()`, character by character: no capital is left, a capital
      becomes the letter 32 code points above it, and every other character
      is kept. */
  function Lower(s: string): (r: string)
    ensures |r| == |s|
    ensures forall k :: 0 <= k < |r| ==> !('A' <= r[k] <= 'Z')
    ensures forall k :: 0 <= k < |s| && !('A' <= s[k] <= 'Z') ==> r[k] == s[k]
    ensures forall k :: 0 <= k < |s| && 'A' <= s[k] <= 'Z' ==> r[k] as int == s[k] as int + 32
  {
    seq(|s|, k requires 0 <= k < |s| => LowerChar(s[k]))
  }

  /** Lowering a lowered text changes nothing. */
  lemma LowerIdempotent(s: string)
    ensures Lower(Lower(s)) == Lower(s)
  {
  }

  /** `q in t` for strings: `q` occurs in `t` as a contiguous piece. */
  predicate Contains(t: string, q: string)
  {
    q <= t || (t != [] && Contains(t[1..], q))
  }

  /** `q` occurs in `t` starting at index `i`. */
  predicate OccursAt(t: string, q: string, i: int)
  {
    0 <= i <= |t| - |q| && t[i..i + |q|] == q
  }

  /** `Contains` holds exactly when `q` occurs in `t` at some position. */
  lemma {:induction false} ContainsAt(t: string, q: string)
    ensures Contains(t, q) <==> exists i :: OccursAt(t, q, i)
  {
    if q <= t {
      assert OccursAt(t, q, 0);
    } else if t == [] {
      assert forall i :: !OccursAt(t, q, i);
    } else {
      ContainsAt(t[1..], q);
      if exists i :: OccursAt(t, q, i) {
        var i :| OccursAt(t, q, i);
        assert i != 0;
        assert OccursAt(t[1..], q, i - 1);
      }
      if Contains(t[1..], q) {
        var i :| OccursAt(t[1..], q, i);
        assert OccursAt(t, q, i + 1);
      }
    }
  }

  function Digit(d: nat): (c: char)
    requires d < 10
    ensures '0' <= c <= '9'
  {
    ('0' as int + d) as char
  }

  predicate AllDigits(s: string)
  {
    forall k :: 0 <= k < |s| ==> '0' <= s[k] <= '9'
  }

  /** `str(n)` for a non-negative integer: its decimal digits, most
      significant first, with no leading zero. */
  function NatToDecimal(n: nat): (s: string)
    ensures |s| >= 1 && AllDigits(s)
    ensures n > 0 ==> s[0] != '0'
  {
    if n < 10 then [Digit(n)] else NatToDecimal(n / 10) + [Digit(n % 10)]
  }

  /** `str(i)` for any integer (`IntToDecimalValue` states what it writes). */
  function IntToDecimal(i: int): string
  {
    if i < 0 then "-" + NatToDecimal(-i) else NatToDecimal(i)
  }

  /** The number a string of decimal digits denotes. */
  function DecimalValue(s: string): nat
    requires AllDigits(s)
  {
    if s == [] then 0 else 10 * DecimalValue(s[..|s| - 1]) + (s[|s| - 1] as int - '0' as int)
  }

  /** Reading back the digits `str(n)` writes gives `n`. */
  lemma {:induction false} DecimalRoundTrip(n: nat)
    ensures DecimalValue(NatToDecimal(n)) == n
  {
    if n >= 10 {
      DecimalRoundTrip(n / 10);
      var s := NatToDecimal(n);
      assert s[..|s| - 1] == NatToDecimal(n / 10);
    }
  }

  /** `str(i)` is the digits of the magnitude of `i`, after a minus sign
      exactly when `i` is negative, and reading the digits back gives that
      magnitude. */
  lemma IntToDecimalValue(i: int)
    ensures |IntToDecimal(i)| >= 1 && (IntToDecimal(i)[0] == '-' <==> i < 0)
    ensures i >= 0 ==> AllDigits(IntToDecimal(i)) && DecimalValue(IntToDecimal(i)) == i
    ensures i < 0 ==> AllDigits(IntToDecimal(i)[1..]) && DecimalValue(IntToDecimal(i)[1..]) == -i
  {
    var s := IntToDecimal(i);
    if i < 0 {
      var d := NatToDecimal(-i);
      DecimalRoundTrip(-i);
      assert s == "-" + d;
      assert s[0] == '-';
      assert s[1..] == d;
    } else {
      DecimalRoundTrip(i);
      assert s == NatToDecimal(i);
      assert '0' <= s[0] <= '9';
    }
  }

  /** Different numbers are written differently. */
  lemma DecimalInjective(m: nat, n: nat)
    requires m != n
    ensures NatToDecimal(m) != NatToDecimal(n)
  {
    DecimalRoundTrip(m);
    DecimalRoundTrip(n);
  }

  /** A number with `d + 1` digits is written with `d + 1` characters. */
  lemma {:induction false} DecimalLength(n: nat, d: nat)
    requires Power10(d) <= n < 10 * Power10(d)
    ensures |NatToDecimal(n)| == d + 1
  {
    if d == 0 {
      assert n < 10;
    } else {
      var l, q := Power10(d - 1), n / 10;
      assert Power10(d) == 10 * l;
      assert n >= 10;
      assert NatToDecimal(n) == NatToDecimal(q) + [Digit(n % 10)];
      assert l <= q < 10 * l;
      DecimalLength(q, d - 1);
    }
  }

  function Power10(d: nat): nat
  {
    if d == 0 then 1 else 10 * Power10(d - 1)
  }
}
