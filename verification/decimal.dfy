/**
  Decimal fields of fixed width: Python's `int(s)` on a string of ASCII
  digits, `str(n)` on a non-negative integer, `s.zfill(w)`, and the
  fixed-width encoding they amount to together.
 */
module Decimal {
  import LexOrder

  predicate IsDigit(c: char) {
    '0' <= c <= '9'
  }

  predicate AllDigits(s: string) {
    forall i :: 0 <= i < |s| ==> IsDigit(s[i])
  }

  function DigitValue(c: char): (d: nat)
    requires IsDigit(c)
    ensures d < 10
  {
    c as int - '0' as int
  }

  function DigitChar(d: nat): (c: char)
    requires d < 10
    ensures IsDigit(c) && DigitValue(c) == d
  {
    ('0' as int + d) as char
  }

  function Pow10(n: nat): (r: nat)
    ensures r >= 1
  {
    if n == 0 then 1 else 10 * Pow10(n - 1)
  }

  /** Python's `int(s)` on a string made only of ASCII digits. */
  function ParseDigits(s: string): (n: nat)
    requires AllDigits(s)
    ensures n < Pow10(|s|)
  {
    if |s| == 0 then 0
    else 10 * ParseDigits(s[..|s| - 1]) + DigitValue(s[|s| - 1])
  }

  /** `n` in exactly `w` decimal digits, most significant first, leading zeros kept. */
  function FixedWidth(n: nat, w: nat): (s: string)
    ensures |s| == w && AllDigits(s)
  {
    if w == 0 then "" else FixedWidth(n / 10, w - 1) + [DigitChar(n % 10)]
  }

  /** Python's `str(n)` for a non-negative integer: no leading zeros. */
  function Str(n: nat): (s: string)
    ensures 1 <= |s| && AllDigits(s)
    ensures |s| > 1 ==> s[0] != '0'
  {
    if n < 10 then [DigitChar(n)] else Str(n / 10) + [DigitChar(n % 10)]
  }

  /** `int(str(n)) == n`. */
  lemma {:induction false} ParseStr(n: nat)
    ensures ParseDigits(Str(n)) == n
  {
    if n >= 10 {
      var s := Str(n);
      assert s[..|s| - 1] == Str(n / 10);
      ParseStr(n / 10);
    }
  }

  function Zeros(k: nat): (s: string)
    ensures |s| == k && forall i :: 0 <= i < k ==> s[i] == '0'
  {
    if k == 0 then "" else Zeros(k - 1) + "0"
  }

  /** Python's `s.zfill(width)` for a string without a sign: left-padded with '0'. */
  function ZFill(s: string, width: nat): string
  {
    if |s| >= width then s else Zeros(width - |s|) + s
  }

  /** Reading back a fixed-width field gives its value. */
  lemma {:induction false} ParseFixedWidth(n: nat, w: nat)
    requires n < Pow10(w)
    ensures ParseDigits(FixedWidth(n, w)) == n
  {
    if w > 0 {
      var s := FixedWidth(n, w);
      assert s[..|s| - 1] == FixedWidth(n / 10, w - 1);
      ParseFixedWidth(n / 10, w - 1);
    }
  }

  /** Re-encoding a digit string at its own width gives it back. */
  lemma {:induction false} FixedWidthParse(s: string)
    requires AllDigits(s)
    ensures FixedWidth(ParseDigits(s), |s|) == s
  {
    if |s| > 0 {
      var p := s[..|s| - 1];
      var n := ParseDigits(s);
      assert n / 10 == ParseDigits(p) && n % 10 == DigitValue(s[|s| - 1]);
      FixedWidthParse(p);
      assert s == p + [s[|s| - 1]];
    }
  }

  lemma FixedWidthInjective(m: nat, n: nat, w: nat)
    requires m < Pow10(w) && n < Pow10(w)
    requires FixedWidth(m, w) == FixedWidth(n, w)
    ensures m == n
  {
    ParseFixedWidth(m, w);
    ParseFixedWidth(n, w);
  }

  lemma {:induction false} StrLength(n: nat, w: nat)
    requires 1 <= w && n < Pow10(w)
    ensures |Str(n)| <= w
  {
    if n >= 10 {
      StrLength(n / 10, w - 1);
    }
  }

  /** A number with exactly `w` digits prints as its w-digit field: `str`
      adds no padding there, so no `zfill` is needed. */
  lemma {:induction false} StrFixedWidth(n: nat, w: nat)
    requires 1 <= w && Pow10(w - 1) <= n < Pow10(w)
    ensures Str(n) == FixedWidth(n, w)
  {
    if w == 1 {
      assert FixedWidth(n, 1) == FixedWidth(n / 10, 0) + [DigitChar(n % 10)];
    } else {
      assert Pow10(w - 1) == 10 * Pow10(w - 2);
      assert n >= 10;
      assert Pow10(w - 2) <= n / 10 < Pow10(w - 1);
      StrFixedWidth(n / 10, w - 1);
    }
  }

  /** `str(n).zfill(w)` is the w-digit field of `n` whenever `n` fits in `w` digits. */
  lemma ZFillStr(n: nat, w: nat)
    requires 1 <= w && n < Pow10(w)
    ensures ZFill(Str(n), w) == FixedWidth(n, w)
  {
    StrLength(n, w);
    ZFillStrFits(n, w);
  }

  /** ZFillStr, by induction on the digits of `n`, stated on the length of `str(n)`. */
  lemma {:induction false} ZFillStrFits(n: nat, w: nat)
    requires |Str(n)| <= w
    ensures ZFill(Str(n), w) == FixedWidth(n, w)
  {
    if n < 10 {
      ZFillDigit(n, w);
    } else {
      var t, c := Str(n / 10), DigitChar(n % 10);
      assert Str(n) == t + [c];
      assert FixedWidth(n, w) == FixedWidth(n / 10, w - 1) + [c];
      ZFillStrFits(n / 10, w - 1);
      ZFillAppend(t, c, w);
    }
  }

  lemma ZFillDigit(n: nat, w: nat)
    requires 1 <= w && n < 10
    ensures ZFill(Str(n), w) == FixedWidth(n, w)
  {
    var c := DigitChar(n);
    assert Str(n) == [c];
    if w == 1 {
      assert FixedWidth(n, 1) == "" + [c];
    } else {
      assert ZFill([c], w) == Zeros(w - 1) + [c];
      assert n / 10 == 0 && n % 10 == n;
      assert FixedWidth(n, w) == FixedWidth(0, w - 1) + [c];
      ZerosFixedWidth(w - 1);
    }
  }

  lemma ZFillAppend(t: string, c: char, w: nat)
    requires |t| < w
    ensures ZFill(t + [c], w) == ZFill(t, w - 1) + [c]
  {
    assert ZFill(t + [c], w) == Zeros(w - 1 - |t|) + (t + [c]);
    assert ZFill(t, w - 1) == Zeros(w - 1 - |t|) + t;
  }

  lemma {:induction false} ZerosFixedWidth(k: nat)
    ensures FixedWidth(0, k) == Zeros(k)
  {
    if k > 0 {
      ZerosFixedWidth(k - 1);
    }
  }

  /** Zero padding makes string order agree with numeric order. */
  lemma {:induction false} FixedWidthOrder(m: nat, n: nat, w: nat)
    requires m < Pow10(w) && n < Pow10(w)
    ensures LexOrder.Less(FixedWidth(m, w), FixedWidth(n, w)) <==> m < n
  {
    if w > 0 {
      var a1, b1 := FixedWidth(m / 10, w - 1), FixedWidth(n / 10, w - 1);
      var a2, b2 := [DigitChar(m % 10)], [DigitChar(n % 10)];
      LexOrder.Concat(a1, a2, b1, b2);
      FixedWidthOrder(m / 10, n / 10, w - 1);
      if a1 == b1 {
        FixedWidthInjective(m / 10, n / 10, w - 1);
      }
      assert LexOrder.Less(a2, b2) <==> m % 10 < n % 10;
    }
  }
}
