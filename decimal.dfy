/**
 * Decimal digit strings: reading a run of ASCII digits as a number (what
 * Go's time.Parse does with the fixed-width fields of a layout) and writing
 * a number in decimal (Go's fmt verbs %d and %0wd, and the zero-padded
 * fields of time.Format).
 */
module Decimal {

  predicate IsDigit(c: char) {
    '0' <= c <= '9'
  }

  predicate AllDigits(s: string) {
    forall i :: 0 <= i < |s| ==> IsDigit(s[i])
  }

  function DigitValue(c: char): (n: nat)
    requires IsDigit(c)
    ensures n < 10
  {
    c as int - '0' as int
  }

  function DigitChar(n: nat): (c: char)
    requires n < 10
    ensures IsDigit(c) && DigitValue(c) == n
  {
    ('0' as int + n) as char
  }

  function Pow10(k: nat): (p: nat)
    ensures p >= 1
  {
    if k == 0 then 1 else 10 * Pow10(k - 1)
  }

  /** The number a string of digits denotes, most significant digit first. */
  function Value(s: string): nat
    requires AllDigits(s)
  {
    if s == [] then 0 else Value(s[..|s| - 1]) * 10 + DigitValue(s[|s| - 1])
  }

  /** The `w` lowest decimal digits of `n`, most significant first. */
  function FixedWidth(n: nat, w: nat): (s: string)
    ensures |s| == w && AllDigits(s)
  {
    if w == 0 then "" else FixedWidth(n / 10, w - 1) + [DigitChar(n % 10)]
  }

  /** How many digits `n` has when written without leading zeros. */
  function NumDigits(n: nat): (k: nat)
    ensures k >= 1
  {
    if n < 10 then 1 else 1 + NumDigits(n / 10)
  }

  /** `n` written in decimal without leading zeros: fmt's %d. */
  function Itoa(n: nat): (s: string)
    ensures AllDigits(s) && Value(s) == n
    ensures |s| >= 1 && (|s| == 1 || Pow10(|s| - 1) <= n)
  {
    NumDigitsBounds(n);
    ValueOfFixedWidth(n, NumDigits(n));
    ModOfSmaller(n, Pow10(NumDigits(n)));
    FixedWidth(n, NumDigits(n))
  }

  /** `n` written in decimal, padded on the left with zeros to at least `w` digits: fmt's %0wd. */
  function ZeroPad(n: nat, w: nat): string
  {
    FixedWidth(n, if NumDigits(n) < w then w else NumDigits(n))
  }

  lemma ModOfSmaller(n: nat, m: nat)
    requires n < m
    ensures n % m == n
  {
  }

  /** Splitting off the last decimal digit of `n` and then the lower k digits of the rest. */
  lemma ModStep(n: nat, k: nat)
    ensures ((n / 10) % Pow10(k)) * 10 + n % 10 == n % Pow10(k + 1)
  {
    var p := Pow10(k);
    var q, r := n / 10, n % 10;
    var a, b := q / p, q % p;
    assert n == 10 * q + r;
    assert q == p * a + b;
    assert n == (10 * p) * a + (10 * b + r);
    assert 0 <= 10 * b + r < 10 * p;
    assert Pow10(k + 1) == 10 * p;
    assert n / (10 * p) == a && n % (10 * p) == 10 * b + r by {
      ModUnique(n, 10 * p, a, 10 * b + r);
    }
  }

  lemma ModUnique(n: nat, m: nat, a: nat, b: nat)
    requires 0 <= b < m && n == m * a + b
    ensures n / m == a && n % m == b
  {
    var a', b' := n / m, n % m;
    assert n == m * a' + b';
    if a' < a {
      MulMonotone(m, a' + 1, a);
      assert false;
    } else if a' > a {
      MulMonotone(m, a + 1, a');
      assert false;
    }
  }

  lemma MulMonotone(m: nat, x: nat, y: nat)
    requires x <= y
    ensures m * x <= m * y
  {
    assert m * y == m * x + m * (y - x);
  }

  lemma {:induction false} ValueOfFixedWidth(n: nat, w: nat)
    ensures Value(FixedWidth(n, w)) == n % Pow10(w)
  {
    if w == 0 {
    } else {
      var s := FixedWidth(n, w);
      assert s[..|s| - 1] == FixedWidth(n / 10, w - 1);
      assert s[|s| - 1] == DigitChar(n % 10);
      ValueOfFixedWidth(n / 10, w - 1);
      ModStep(n, w - 1);
    }
  }

  lemma {:induction false} FixedWidthOfValue(s: string)
    requires AllDigits(s)
    ensures FixedWidth(Value(s), |s|) == s
  {
    if s != [] {
      var t, c := s[..|s| - 1], s[|s| - 1];
      var v := Value(s);
      assert v == Value(t) * 10 + DigitValue(c);
      assert v / 10 == Value(t) && v % 10 == DigitValue(c) by {
        ModUnique(v, 10, Value(t), DigitValue(c));
      }
      FixedWidthOfValue(t);
      assert DigitChar(DigitValue(c)) == c;
      assert s == t + [c];
    }
  }

  lemma {:induction false} ValueBound(s: string)
    requires AllDigits(s)
    ensures Value(s) < Pow10(|s|)
  {
    if s != [] {
      ValueBound(s[..|s| - 1]);
    }
  }

  lemma {:induction false} NumDigitsBounds(n: nat)
    ensures n < Pow10(NumDigits(n))
    ensures NumDigits(n) == 1 || Pow10(NumDigits(n) - 1) <= n
  {
    if n >= 10 {
      NumDigitsBounds(n / 10);
    }
  }

  lemma {:induction false} Pow10Monotone(i: nat, j: nat)
    requires i <= j
    ensures Pow10(i) <= Pow10(j)
  {
    if i < j {
      Pow10Monotone(i, j - 1);
    }
  }

  /** A number below 10^w, padded to width w, is exactly its w lowest digits. */
  lemma ZeroPadIsFixedWidth(n: nat, w: nat)
    requires 1 <= w && n < Pow10(w)
    ensures ZeroPad(n, w) == FixedWidth(n, w)
    ensures |ZeroPad(n, w)| == w && AllDigits(ZeroPad(n, w)) && Value(ZeroPad(n, w)) == n
  {
    NumDigitsBounds(n);
    if NumDigits(n) > w {
      Pow10Monotone(w, NumDigits(n) - 1);
    }
    ValueOfFixedWidth(n, w);
    ModOfSmaller(n, Pow10(w));
  }

  /** Padding is undone by reading: a digit string of width w is the padding of its value. */
  lemma ZeroPadOfValue(s: string)
    requires AllDigits(s) && |s| >= 1
    ensures ZeroPad(Value(s), |s|) == s
  {
    ValueBound(s);
    ZeroPadIsFixedWidth(Value(s), |s|);
    FixedWidthOfValue(s);
  }

  lemma ValueOfTwo(s: string)
    requires |s| == 2 && AllDigits(s)
    ensures Value(s) == 10 * DigitValue(s[0]) + DigitValue(s[1])
  {
    assert s[..1][..0] == [] && s[..1][0] == s[0];
    assert Value(s[..1]) == DigitValue(s[0]);
  }

  lemma ValueOfFour(s: string)
    requires |s| == 4 && AllDigits(s)
    ensures Value(s) == 1000 * DigitValue(s[0]) + 100 * DigitValue(s[1]) + 10 * DigitValue(s[2]) + DigitValue(s[3])
  {
    ValueOfTwo(s[..2]);
    assert s[..3][..2] == s[..2];
  }
}
