/**
 * Decimal digit strings: the notation both Python's str(int) / format(n, '08d') and
 * JavaScript's Number.prototype.toString produce for integers, and its value.
 */
module Decimal {
  import opened Wrappers

  predicate IsDigit(c: char) {
    '0' <= c <= '9'
  }

  predicate AllDigits(s: string) {
    forall k | 0 <= k < |s| :: IsDigit(s[k])
  }

  function DigitChar(d: nat): (c: char)
    requires d < 10
    ensures IsDigit(c) && DigitOf(c) == d
  {
    ('0' as int + d) as char
  }

  /** The value of a digit character (meaningful when IsDigit holds). */
  function DigitOf(c: char): int {
    c as int - '0' as int
  }

  function Pow10(k: nat): (p: nat)
    ensures p >= 1
    ensures k >= 1 ==> p >= 10
  {
    if k == 0 then 1 else 10 * Pow10(k - 1)
  }

  /** The decimal notation of `n`, with no leading zero ("0" for zero). */
  function DecimalString(n: nat): (s: string)
    ensures |s| >= 1 && IsDigit(s[0])
    decreases n
  {
    if n < 10 then [DigitChar(n)] else DecimalString(n / 10) + [DigitChar(n % 10)]
  }

  /** Only digits, and a leading zero only in "0". */
  lemma {:induction false} DecimalDigits(n: nat)
    ensures AllDigits(DecimalString(n))
    ensures DecimalString(n)[0] == '0' ==> n == 0
    decreases n
  {
    if n >= 10 {
      DecimalDigits(n / 10);
      assert DecimalString(n)[0] == DecimalString(n / 10)[0];
    }
  }

  /** The decimal notation of an integer, with a leading '-' when it is negative. */
  function IntString(i: int): (s: string)
    ensures |s| >= 1
    ensures s[0] == '-' <==> i < 0
  {
    if i < 0 then "-" + DecimalString(-i) else DecimalString(i)
  }

  /** The number a string of decimal digits denotes; leading zeros add nothing. */
  function DigitsValue(s: string): int {
    if s == [] then 0 else 10 * DigitsValue(s[..|s| - 1]) + DigitOf(s[|s| - 1])
  }

  /** `width` zeros. */
  function Zeros(width: nat): (z: string)
    ensures |z| == width
  {
    seq(width, _ => '0')
  }

  /** `s` left-padded with zeros to at least `width` characters. */
  function ZeroPad(s: string, width: nat): (r: string)
    ensures |r| == Max(|s|, width)
  {
    if |s| >= width then s else Zeros(width - |s|) + s
  }

  /** The last `k` characters of `s`, or all of it when it is shorter: JavaScript's `s.slice(-k)` for k > 0. */
  function Suffix(s: string, k: nat): (r: string)
    ensures |r| == Min(k, |s|)
  {
    if |s| <= k then s else s[|s| - k..]
  }

  /** Reading back the decimal notation of `n` gives `n`. */
  lemma {:induction false} DecimalRoundTrip(n: nat)
    ensures DigitsValue(DecimalString(n)) == n
    decreases n
  {
    if n >= 10 {
      var s := DecimalString(n);
      assert s[..|s| - 1] == DecimalString(n / 10);
      DecimalRoundTrip(n / 10);
    }
  }

  /** The decimal notation of `n` fits in `k` characters exactly when n < 10^k. */
  lemma {:induction false} DecimalLength(n: nat, k: nat)
    requires k >= 1
    ensures |DecimalString(n)| <= k <==> n < Pow10(k)
    decreases n
  {
    if n >= 10 && k >= 2 {
      DecimalLength(n / 10, k - 1);
    }
  }

  lemma {:induction false} ZerosValue(width: nat)
    ensures DigitsValue(Zeros(width)) == 0
  {
    if width > 0 {
      assert Zeros(width)[..width - 1] == Zeros(width - 1);
      ZerosValue(width - 1);
    }
  }

  /** Leading zeros do not change the value of a digit string. */
  lemma {:induction false} LeadingZerosValue(width: nat, s: string)
    requires AllDigits(s)
    ensures AllDigits(Zeros(width) + s)
    ensures DigitsValue(Zeros(width) + s) == DigitsValue(s)
  {
    var t := Zeros(width) + s;
    if s == [] {
      assert t == Zeros(width);
      ZerosValue(width);
    } else {
      assert t[..|t| - 1] == Zeros(width) + s[..|s| - 1];
      LeadingZerosValue(width, s[..|s| - 1]);
    }
  }

  /** Reading back a zero-padded decimal notation gives the number. */
  lemma ZeroPadRoundTrip(n: nat, width: nat)
    ensures AllDigits(ZeroPad(DecimalString(n), width))
    ensures DigitsValue(ZeroPad(DecimalString(n), width)) == n
  {
    var s := DecimalString(n);
    DecimalRoundTrip(n);
    DecimalDigits(n);
    if |s| < width {
      LeadingZerosValue(width - |s|, s);
    }
  }

  lemma MulSmall(d: int, x: int)
    requires d > 0 && -d < d * x < d
    ensures x == 0
  {
  }

  /** A remainder is determined by any decomposition n == d * a + m with 0 <= m < d. */
  lemma ModUnique(n: int, d: int, a: int, m: int)
    requires d > 0 && 0 <= m < d && n == d * a + m
    ensures n % d == m
  {
    var q, r := n / d, n % d;
    assert d * (a - q) == r - m;
    MulSmall(d, a - q);
  }

  /** The last digit and the remainder of the rest together give the remainder modulo 10 * p. */
  lemma ModSplit(n: nat, p: nat)
    requires p >= 1
    ensures 10 * ((n / 10) % p) + n % 10 == n % (10 * p)
  {
    var q, r := n / 10, n % 10;
    var a, b := q / p, q % p;
    assert n == 10 * q + r;
    assert q == p * a + b;
    assert n == (10 * p) * a + (10 * b + r);
    ModUnique(n, 10 * p, a, 10 * b + r);
  }

  lemma CombineLastDigit(n: nat, p: nat, v: nat, d: nat)
    requires p >= 1 && v == (n / 10) % p && d == n % 10
    ensures 10 * v + d == n % (10 * p)
  {
    ModSplit(n, p);
  }

  lemma SmallMod(n: nat, p: nat)
    requires n < p
    ensures n % p == n
  {
  }

  lemma LastDigitValue(s: string, d: char)
    requires AllDigits(s) && IsDigit(d)
    ensures AllDigits(s + [d])
    ensures DigitsValue(s + [d]) == 10 * DigitsValue(s) + DigitOf(d)
  {
    assert (s + [d])[..|s|] == s;
  }

  /** Dropping the last digit of a suffix gives the suffix, one shorter, of the rest. */
  lemma SuffixFront(front: string, d: char, k: nat)
    requires k >= 1
    ensures Suffix(front + [d], k) == Suffix(front, k - 1) + [d]
  {
    var s := front + [d];
    if |s| > k {
      assert s[|s| - k..] == front[|front| - (k - 1)..] + [d];
    }
  }

  /** The last `k` digits of the notation of `n` denote n mod 10^k. */
  lemma {:induction false} SuffixValue(n: nat, k: nat)
    ensures AllDigits(Suffix(DecimalString(n), k))
    ensures DigitsValue(Suffix(DecimalString(n), k)) == n % Pow10(k)
    decreases n, 1
  {
    if k == 0 {
      EmptySuffix(n);
    } else if n < 10 {
      SingleDigitSuffix(n, k);
    } else {
      SuffixValueStep(n, k);
    }
  }

  lemma EmptySuffix(n: nat)
    ensures AllDigits(Suffix(DecimalString(n), 0))
    ensures DigitsValue(Suffix(DecimalString(n), 0)) == n % Pow10(0)
  {
    assert Suffix(DecimalString(n), 0) == [];
  }

  lemma SingleDigitSuffix(n: nat, k: nat)
    requires n < 10 && k >= 1
    ensures AllDigits(Suffix(DecimalString(n), k))
    ensures DigitsValue(Suffix(DecimalString(n), k)) == n % Pow10(k)
  {
    var s := DecimalString(n);
    assert Suffix(s, k) == s;
    DecimalRoundTrip(n);
    DecimalDigits(n);
    SmallMod(n, Pow10(k));
  }

  /** Appending a digit to a string shifts its suffixes' value by one place. */
  lemma AppendDigitSuffix(front: string, d: char, k: nat)
    requires k >= 1 && IsDigit(d) && AllDigits(Suffix(front, k - 1))
    ensures AllDigits(Suffix(front + [d], k))
    ensures DigitsValue(Suffix(front + [d], k)) == 10 * DigitsValue(Suffix(front, k - 1)) + DigitOf(d)
  {
    SuffixFront(front, d, k);
    LastDigitValue(Suffix(front, k - 1), d);
  }

  /** The inductive step of SuffixValue: from the claim for n / 10 and k - 1. */
  lemma {:induction false} SuffixValueStep(n: nat, k: nat)
    requires n >= 10 && k >= 1
    ensures AllDigits(Suffix(DecimalString(n), k))
    ensures DigitsValue(Suffix(DecimalString(n), k)) == n % Pow10(k)
    decreases n, 0
  {
    SuffixValue(n / 10, k - 1);
    var front, last := DecimalString(n / 10), DigitChar(n % 10);
    assert DecimalString(n) == front + [last];
    AppendDigitSuffix(front, last, k);
    var p := Pow10(k - 1);
    CombineLastDigit(n, p, n / 10 % p, n % 10);
    assert Pow10(k) == 10 * p;
  }

  /** Two digit strings of the same length with the same value are the same string. */
  lemma {:induction false} DigitsInjective(a: string, b: string)
    requires AllDigits(a) && AllDigits(b) && |a| == |b|
    requires DigitsValue(a) == DigitsValue(b)
    ensures a == b
  {
    if a != [] {
      var n := |a| - 1;
      var x, y := DigitOf(a[n]), DigitOf(b[n]);
      ModUnique(DigitsValue(a), 10, DigitsValue(a[..n]), x);
      ModUnique(DigitsValue(b), 10, DigitsValue(b[..n]), y);
      assert a[..n] == b[..n] by {
        DigitsInjective(a[..n], b[..n]);
      }
      assert a == a[..n] + [a[n]] && b == b[..n] + [b[n]];
    }
  }
}
