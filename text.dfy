/**
 * The Python 3 string primitives the scripts rely on, with Python's meaning:
 * `str.isspace`, `str.split()` without a separator, `str.startswith`,
 * `int()` of a run of ASCII digits, `str()` of a natural number,
 * the `0<width>d` format specification, and the ordering of `str` values
 * by code point.
 */
module Text {

  // ---------------------------------------------------------------------
  // Whitespace and str.split()
  // ---------------------------------------------------------------------

  /** The characters for which Python's `str.isspace()` holds. */
  predicate IsSpace(c: char)
  {
    || c == ' '
    || ('\t' <= c <= '\r')
    || ('\U{1c}' <= c <= '\U{1f}')
    || c == '\U{85}' || c == '\U{a0}' || c == '\U{1680}'
    || ('\U{2000}' <= c <= '\U{200a}')
    || c == '\U{2028}' || c == '\U{2029}' || c == '\U{202f}' || c == '\U{205f}' || c == '\U{3000}'
  }

  /** Empty or whitespace only: `s.strip() == ""`. */
  predicate IsBlank(s: string)
  {
    forall i :: 0 <= i < |s| ==> IsSpace(s[i])
  }

  /** A field that `split()` can produce: non-empty, without whitespace. */
  predicate IsToken(t: string)
  {
    t != [] && forall i :: 0 <= i < |t| ==> !IsSpace(t[i])
  }

  /** The longest prefix of `s` that holds no whitespace. */
  function Word(s: string): (w: string)
    ensures |w| <= |s| && w == s[..|w|]
    ensures forall i :: 0 <= i < |w| ==> !IsSpace(w[i])
    ensures |w| < |s| ==> IsSpace(s[|w|])
  {
    if s == [] || IsSpace(s[0]) then [] else [s[0]] + Word(s[1..])
  }

  /** `s.split()`: the maximal runs of non-whitespace characters, in order. */
  function Split(s: string): seq<string>
    decreases |s|
  {
    if s == [] then []
    else if IsSpace(s[0]) then Split(s[1..])
    else
      var w := Word(s);
      [w] + Split(s[|w|..])
  }

  /** The characters of `s` that are not whitespace, in order. */
  function NonSpace(s: string): string
  {
    if s == [] then [] else (if IsSpace(s[0]) then [] else [s[0]]) + NonSpace(s[1..])
  }

  /** The strings of `ts` one after the other: `"".join(ts)`. */
  function Concat(ts: seq<string>): string
  {
    if ts == [] then [] else ts[0] + Concat(ts[1..])
  }

  /** Every field of `s.split()` is a non-empty run without whitespace. */
  lemma {:induction false} SplitYieldsTokens(s: string)
    ensures forall k :: 0 <= k < |Split(s)| ==> IsToken(Split(s)[k])
    decreases |s|
  {
    if s == [] {
    } else if IsSpace(s[0]) {
      SplitYieldsTokens(s[1..]);
    } else {
      var w := Word(s);
      SplitYieldsTokens(s[|w|..]);
    }
  }

  /** `s.split()` is empty exactly when `s` is blank. */
  lemma {:induction false} SplitEmptyIffBlank(s: string)
    ensures Split(s) == [] <==> IsBlank(s)
    decreases |s|
  {
    if s == [] {
    } else if IsSpace(s[0]) {
      SplitEmptyIffBlank(s[1..]);
      assert IsBlank(s) <==> IsBlank(s[1..]) by {
        if IsBlank(s[1..]) {
          forall i | 0 <= i < |s| ensures IsSpace(s[i]) {
            if i > 0 { assert s[i] == s[1..][i - 1]; }
          }
        }
      }
    } else {
      assert !IsSpace(s[0]);
    }
  }

  lemma {:induction false} NonSpaceOfWordPrefix(s: string, n: nat)
    requires n <= |s|
    requires forall i :: 0 <= i < n ==> !IsSpace(s[i])
    ensures NonSpace(s) == s[..n] + NonSpace(s[n..])
    decreases n
  {
    if n > 0 {
      NonSpaceOfWordPrefix(s[1..], n - 1);
      assert s[1..][n - 1..] == s[n..];
      assert s[..n] == [s[0]] + s[1..][..n - 1];
    }
  }

  /** Splitting loses only the whitespace: the fields joined back are `s` without its whitespace. */
  lemma {:induction false} SplitKeepsNonSpace(s: string)
    ensures Concat(Split(s)) == NonSpace(s)
    decreases |s|
  {
    if s == [] {
    } else if IsSpace(s[0]) {
      SplitKeepsNonSpace(s[1..]);
    } else {
      var w := Word(s);
      SplitKeepsNonSpace(s[|w|..]);
      NonSpaceOfWordPrefix(s, |w|);
      assert Split(s) == [w] + Split(s[|w|..]);
      assert Split(s)[1..] == Split(s[|w|..]);
    }
  }

  /** `s.startswith(prefix)`. */
  predicate StartsWith(s: string, prefix: string)
  {
    |prefix| <= |s| && s[..|prefix|] == prefix
  }

  // ---------------------------------------------------------------------
  // Decimal digits: int() and str() of naturals, the 0<width>d format
  // ---------------------------------------------------------------------

  /** The class of the regular expression `\d`, restricted to ASCII. */
  predicate IsDigit(c: char)
  {
    '0' <= c <= '9'
  }

  predicate AllDigits(s: string)
  {
    forall i :: 0 <= i < |s| ==> IsDigit(s[i])
  }

  function DigitValue(c: char): nat
    requires IsDigit(c)
  {
    c as int - '0' as int
  }

  function DigitChar(d: nat): (c: char)
    requires d < 10
    ensures IsDigit(c) && DigitValue(c) == d
  {
    ('0' as int + d) as char
  }

  /** `int(s)` for a string of ASCII digits, leading zeros allowed; `""` stands for 0. */
  function DecimalValue(s: string): nat
    requires AllDigits(s)
  {
    if s == [] then 0 else 10 * DecimalValue(s[..|s| - 1]) + DigitValue(s[|s| - 1])
  }

  /** `str(n)`: the decimal digits of `n`, most significant first. */
  function Decimal(n: nat): (s: string)
    ensures s != [] && AllDigits(s)
  {
    if n < 10 then [DigitChar(n)] else Decimal(n / 10) + [DigitChar(n % 10)]
  }

  function Pow10(k: nat): nat
  {
    if k == 0 then 1 else 10 * Pow10(k - 1)
  }

  /** Reading back the digits of `str(n)` gives `n`, and they have no leading zero. */
  lemma {:induction false} DecimalRoundTrip(n: nat)
    ensures DecimalValue(Decimal(n)) == n
    ensures n > 0 ==> Decimal(n)[0] != '0'
  {
    if n >= 10 {
      DecimalRoundTrip(n / 10);
      var s := Decimal(n);
      assert s[..|s| - 1] == Decimal(n / 10);
    }
  }

  lemma {:induction false} DecimalValuePositive(s: string)
    requires s != [] && AllDigits(s) && s[0] != '0'
    ensures DecimalValue(s) > 0
    decreases |s|
  {
    if |s| > 1 {
      DecimalValuePositive(s[..|s| - 1]);
    }
  }

  /** Conversely, printing the value of a digit string without a leading zero gives the string back. */
  lemma {:induction false} DecimalOfValue(s: string)
    requires s != [] && AllDigits(s) && (s[0] != '0' || |s| == 1)
    ensures Decimal(DecimalValue(s)) == s
    decreases |s|
  {
    if |s| > 1 {
      var front := s[..|s| - 1];
      DecimalOfValue(front);
      DecimalValuePositive(front);
      var n := DecimalValue(s);
      assert n / 10 == DecimalValue(front) && n % 10 == DigitValue(s[|s| - 1]);
      assert s == front + [s[|s| - 1]];
    }
  }

  /** `str(n)` has at most `k` digits exactly when `n < 10**k`. */
  lemma {:induction false} DecimalLength(n: nat, k: nat)
    requires k >= 1
    ensures |Decimal(n)| <= k <==> n < Pow10(k)
  {
    if n >= 10 {
      if k == 1 {
        assert |Decimal(n)| == |Decimal(n / 10)| + 1;
      } else {
        DecimalLength(n / 10, k - 1);
      }
    } else {
      PowAtLeastTen(k);
    }
  }

  lemma {:induction false} PowAtLeastTen(k: nat)
    requires k >= 1
    ensures Pow10(k) >= 10
  {
    if k > 1 {
      PowAtLeastTen(k - 1);
    }
  }

  function Zeros(k: nat): (z: string)
    ensures |z| == k && AllDigits(z)
  {
    seq(k, _ => '0')
  }

  /** `s` left-padded with `'0'` to at least `width` characters. */
  function ZeroPad(s: string, width: nat): string
  {
    if |s| < width then Zeros(width - |s|) + s else s
  }

  lemma {:induction false} ZerosHaveValueZero(k: nat)
    ensures DecimalValue(Zeros(k)) == 0
  {
    if k > 0 {
      ZerosHaveValueZero(k - 1);
      assert Zeros(k)[..k - 1] == Zeros(k - 1);
    }
  }

  /** Leading zeros do not change the value that `int()` reads. */
  lemma {:induction false} LeadingZerosKeepValue(k: nat, s: string)
    requires AllDigits(s)
    ensures AllDigits(Zeros(k) + s) && DecimalValue(Zeros(k) + s) == DecimalValue(s)
    decreases |s|
  {
    var p := Zeros(k) + s;
    assert AllDigits(p) by {
      forall i | 0 <= i < |p| ensures IsDigit(p[i]) {
        if i >= k { assert p[i] == s[i - k]; }
      }
    }
    if s == [] {
      assert p == Zeros(k);
      ZerosHaveValueZero(k);
    } else {
      var front := s[..|s| - 1];
      LeadingZerosKeepValue(k, front);
      assert p[..|p| - 1] == Zeros(k) + front;
      assert p[|p| - 1] == s[|s| - 1];
    }
  }

  /** Python's `f"{n:0{width}d}"`: a minus sign for negative `n`, then the digits of `|n|` padded with zeros so that the whole is at least `width` characters. */
  function FormatZeroPadded(n: int, width: nat): string
  {
    if n >= 0 then ZeroPad(Decimal(n), width)
    else "-" + ZeroPad(Decimal(-n), if width > 0 then width - 1 else 0)
  }

  /** The padded field is at least `width` long, exactly `width` when the number fits, and reading its digits back gives the number. */
  lemma {:induction false} FormatZeroPaddedRoundTrip(n: int, width: nat)
    ensures |FormatZeroPadded(n, width)| >= width
    ensures n >= 0 ==> AllDigits(FormatZeroPadded(n, width)) && DecimalValue(FormatZeroPadded(n, width)) == n
    ensures n >= 0 && width >= 1 && n < Pow10(width) ==> |FormatZeroPadded(n, width)| == width
    ensures n < 0 ==> var s := FormatZeroPadded(n, width);
                      s[0] == '-' && AllDigits(s[1..]) && DecimalValue(s[1..]) == -n
  {
    var m: nat := if n >= 0 then n else -n;
    var w: nat := if n >= 0 then width else if width > 0 then width - 1 else 0;
    var d := Decimal(m);
    DecimalRoundTrip(m);
    var padded := ZeroPad(d, w);
    if |d| < w {
      LeadingZerosKeepValue(w - |d|, d);
    }
    assert AllDigits(padded) && DecimalValue(padded) == m;
    if n >= 0 && width >= 1 {
      DecimalLength(n, width);
    }
    if n < 0 {
      assert FormatZeroPadded(n, width)[1..] == padded;
    }
  }

  /** Different numbers are formatted differently, so the padded field identifies the number. */
  lemma FormatZeroPaddedInjective(m: int, n: int, width: nat)
    requires FormatZeroPadded(m, width) == FormatZeroPadded(n, width)
    ensures m == n
  {
    FormatZeroPaddedRoundTrip(m, width);
    FormatZeroPaddedRoundTrip(n, width);
  }

  // ---------------------------------------------------------------------
  // Ordering of str values
  // ---------------------------------------------------------------------

  /** Python's `a <= b` on `str`: code points compared left to right, a proper prefix first. */
  predicate LexLe(a: string, b: string)
  {
    a == [] || (b != [] && (a[0] < b[0] || (a[0] == b[0] && LexLe(a[1..], b[1..]))))
  }

  lemma {:induction false} LexLeReflexive(a: string)
    ensures LexLe(a, a)
  {
    if a != [] {
      LexLeReflexive(a[1..]);
    }
  }

  lemma {:induction false} LexLeAntisymmetric(a: string, b: string)
    requires LexLe(a, b) && LexLe(b, a)
    ensures a == b
  {
    if a != [] && b != [] {
      LexLeAntisymmetric(a[1..], b[1..]);
      assert a == [a[0]] + a[1..] && b == [b[0]] + b[1..];
    }
  }

  lemma {:induction false} LexLeTransitive(a: string, b: string, c: string)
    requires LexLe(a, b) && LexLe(b, c)
    ensures LexLe(a, c)
  {
    if a != [] && b != [] && c != [] && a[0] == b[0] == c[0] {
      LexLeTransitive(a[1..], b[1..], c[1..]);
    }
  }

  lemma {:induction false} LexLeTotal(a: string, b: string)
    ensures LexLe(a, b) || LexLe(b, a)
  {
    if a != [] && b != [] && a[0] == b[0] {
      LexLeTotal(a[1..], b[1..]);
    }
  }
}
