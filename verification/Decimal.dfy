/** Printing whole numbers. */
module Decimal {
  type Digit = d: int | 0 <= d < 10

  const INT_MAX := 0x7fff_ffff

  function Tens(k: nat): (p: nat)
    ensures p > 0
  {
    if k == 0 then 1 else 10 * Tens(k - 1)
  }

  function DigitChar(d: Digit): char {
    '0' + d as char
  }

  predicate IsDigit(c: char) {
    '0' <= c <= '9'
  }

  function DigitOf(c: char): Digit
    requires IsDigit(c)
  {
    (c - '0') as int
  }

  lemma DigitChars(d: Digit)
    ensures IsDigit(DigitChar(d)) && DigitOf(DigitChar(d)) == d
  {
  }

  /** The canonical numeral of a number. */
  function Numeral(n: nat): (s: string)
    ensures s != []
  {
    if n < 10 then [DigitChar(n)] else Numeral(n / 10) + [DigitChar(n % 10)]
  }

  /** The last `k` digits of a number. */
  function Padded(n: nat, k: nat): (s: string)
    ensures |s| == k
  {
    if k == 0 then [] else Padded(n / 10, k - 1) + [DigitChar(n % 10)]
  }

  predicate AllDigits(s: string) {
    forall c :: c in s ==> IsDigit(c)
  }

  /** The number a row of digits stands for. */
  function ValueOf(s: string): (n: nat)
    requires AllDigits(s)
  {
    if s == [] then 0
    else
      assert s[|s| - 1] in s;
      ValueOf(s[..|s| - 1]) * 10 + DigitOf(s[|s| - 1])
  }

  // ----- a numeral is canonical and stands for its number -----

  lemma {:induction false} NumeralStandsFor(n: nat)
    ensures AllDigits(Numeral(n)) && ValueOf(Numeral(n)) == n
    ensures Numeral(n)[0] == '0' ==> n == 0 && |Numeral(n)| == 1
  {
    DigitChars(n % 10);
    if n >= 10 {
      NumeralStandsFor(n / 10);
      var s := Numeral(n);
      assert s[..|s| - 1] == Numeral(n / 10);
    } else {
      assert [DigitChar(n)][..0] == [];
      DigitChars(n);
    }
  }

  /** Only the canonical numeral has no leading zero. */
  lemma {:induction false} CanonicalNumeral(s: string)
    requires s != [] && AllDigits(s) && (s[0] == '0' ==> |s| == 1)
    ensures s == Numeral(ValueOf(s))
  {
    var front, last := s[..|s| - 1], s[|s| - 1];
    assert last in s && DigitChar(DigitOf(last)) == last;
    if |s| == 1 {
      assert front == [] && s == [last];
    } else {
      assert front[0] == s[0];
      LeadingDigitCounts(front);
      CanonicalNumeral(front);
      var v, d := ValueOf(front), DigitOf(last);
      assert (v * 10 + d) / 10 == v && (v * 10 + d) % 10 == d;
      assert s == front + [last];
    }
  }

  lemma {:induction false} LeadingDigitCounts(s: string)
    requires s != [] && AllDigits(s) && s[0] != '0'
    ensures ValueOf(s) >= 1
  {
    var front := s[..|s| - 1];
    assert s[|s| - 1] in s;
    if front != [] {
      assert front[0] == s[0];
      LeadingDigitCounts(front);
    }
  }

  /** The leading digit comes off the front. */
  lemma {:induction false} PaddedFromFront(q: Digit, r: nat, k: nat)
    requires r < Tens(k)
    ensures Padded(q * Tens(k) + r, k + 1) == [DigitChar(q)] + Padded(r, k)
  {
    if k == 0 {
      assert q * 1 + 0 == q && Padded(q / 10, 0) == [];
    } else {
      var a, b := r / 10, r % 10;
      var t := Tens(k - 1);
      assert q * (10 * t) + r == 10 * (q * t + a) + b;
      PaddedFromFront(q, a, k - 1);
      DivideByTen(q * t + a, b);
      assert Padded(q * Tens(k) + r, k + 1) == Padded(q * t + a, k) + [DigitChar(b)];
    }
  }

  lemma DivideByTen(a: nat, b: Digit)
    ensures (10 * a + b) / 10 == a && (10 * a + b) % 10 == b
  {
  }

  /** A numeral has as many digits as it needs. */
  lemma {:induction false} NumeralIsPadded(n: nat, k: nat)
    requires n < Tens(k + 1) && (k == 0 || Tens(k) <= n)
    ensures Numeral(n) == Padded(n, k + 1)
  {
    if k == 0 {
      assert Tens(1) == 10 && Padded(n / 10, 0) == [];
    } else {
      assert Tens(k) == 10 * Tens(k - 1) && Tens(k) >= 10;
      NumeralIsPadded(n / 10, k - 1);
    }
  }

  // ----- printing -----

  /** Prints a number by repeated subtraction of powers of ten, without overflow. */
  method DecPrint(v: int, s: array<char>, at: nat) returns (i: nat)
    requires 0 <= v <= INT_MAX && at + 10 <= s.Length
    modifies s
    ensures i == |Numeral(v)| <= 10 && s[at..at + i] == Numeral(v)
    ensures forall j :: 0 <= j < at ==> s[j] == old(s[j])
  {
    if v == 0 {
      s[at] := '0';
      assert s[at..at + 1] == [DigitChar(0)];
      return 1;
    }
    var p := 1;
    ghost var k := 0;
    while p <= 999999999 && p * 10 <= v
      invariant p == Tens(k) <= v && (p > 999999999 ==> v < Tens(k + 1))
      invariant p <= 999999999 ==> p * 10 <= INT_MAX
      invariant k <= 9 && unchanged(s)
      decreases v - p
    {
      p := p * 10;
      k := k + 1;
      SmallTens(k);
    }
    NumeralIsPadded(v, k);
    i := WriteDigits(v, s, at, p, k + 1);
  }

  lemma SmallTens(k: nat)
    ensures k <= 8 ==> Tens(k) <= 100000000
    ensures k == 9 ==> Tens(k) == 1000000000
    ensures k >= 9 ==> Tens(k + 1) > INT_MAX
    decreases k
  {
    if k > 9 { SmallTens(k - 1); } else {
      assert Tens(3) == 1000;
      assert Tens(6) == 1000 * Tens(3);
      assert Tens(9) == 1000 * Tens(6);
    }
  }

  /** How often a power goes into a number, by subtraction. */
  method CountOff(v: nat, p: nat) returns (count: nat, val: nat)
    requires p > 0 && v < 10 * p
    ensures v == count * p + val && val < p && count < 10
  {
    val, count := v, 0;
    while val >= p
      invariant v == count * p + val
      decreases val
    {
      val := val - p;
      count := count + 1;
    }
    CountIsDigit(count, p, val, v);
  }

  /** Writes the `left` digits of a number, from the first on; `p` is the power of the first. */
  method WriteDigits(v: nat, s: array<char>, at: nat, p0: nat, ghost left0: nat) returns (i: nat)
    requires left0 > 0 && v < Tens(left0) && p0 == Tens(left0 - 1) && at + left0 <= s.Length
    modifies s
    ensures i == left0 && s[at..at + i] == Padded(v, left0)
    ensures forall j :: 0 <= j < at ==> s[j] == old(s[j])
  {
    hide Padded, Tens;
    var val: nat, p: nat := v, p0;
    i := 0;
    ghost var left: nat, whole := left0, Padded(v, left0);
    while p > 0
      invariant left + i == left0 && p == Power(left) && val < Tens(left)
      invariant s[at..at + i] + Padded(val, left) == whole
      invariant forall j :: 0 <= j < at ==> s[j] == old(s[j])
      decreases left
    {
      PowerDown(left);
      ghost var done := s[at..at + i];
      var count, rest := CountOff(val, p);
      PaddedFromFront(count, rest, left - 1);
      s[at + i] := DigitChar(count);
      assert s[at..at + i + 1] == done + [DigitChar(count)];
      OneMore(done, DigitChar(count), Padded(rest, left - 1));
      val, i, p, left := rest, i + 1, p / 10, left - 1;
    }
    PowerEnds(left);
    PaddedNone(val);
  }

  lemma OneMore(a: string, c: char, b: string)
    ensures a + ([c] + b) == (a + [c]) + b
  {
  }

  /** The power of the first of `left` digits, or nothing. */
  ghost function Power(left: nat): (p: nat) {
    if left == 0 then 0 else Tens(left - 1)
  }

  lemma PowerDown(left: nat)
    requires Power(left) > 0
    ensures left > 0 && Power(left) == Tens(left - 1) && Power(left) / 10 == Power(left - 1)
    ensures Tens(left) == 10 * Tens(left - 1)
  {
  }

  lemma PowerEnds(left: nat)
    requires Power(left) == 0
    ensures left == 0
  {
  }

  lemma PaddedNone(v: nat)
    ensures Padded(v, 0) == []
  {
  }

  lemma CountIsDigit(count: nat, p: nat, val: nat, before: nat)
    requires p > 0 && before == count * p + val && before < 10 * p
    ensures count < 10
  {
    if count >= 10 { MoreTimes(count, 10, p); }
  }

  lemma MoreTimes(a: nat, b: nat, p: nat)
    requires a >= b
    ensures a * p >= b * p
  {
  }

  /** Prints a whole number that an `int` holds. */
  method FromInt(v: int, s: array<char>) returns (n: nat)
    requires -INT_MAX <= v <= INT_MAX && s.Length >= 11
    modifies s
    ensures n == |Printed(v)| <= 11 && s[..n] == Printed(v)
  {
    hide Numeral;
    var val, at := v, 0;
    if val < 0 {
      s[0] := '-';
      at := 1;
      val := -val;
    }
    ghost var sign := s[..at];
    var digits := DecPrint(val, s, at);
    n := at + digits;
    assert s[..at] == sign;
    assert s[..n] == s[..at] + s[at..n];
    assert [] + Numeral(val) == Numeral(val);
  }

  function Printed(v: int): (s: string) {
    if v < 0 then ['-'] + Numeral(-v) else Numeral(v)
  }
}
