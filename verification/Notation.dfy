/** What the digits of a numeral stand for, place by place. */
module Notation {
  import opened Basics
  import opened Decimal
  import opened Numerals

  /** The digits in the order of their values. */
  const DIGITS := "0123456789"

  /** One with this many zeros. */
  function Power(k: nat): (p: nat)
    ensures p > 0
  {
    if k == 0 then 1 else Power(k - 1) * 10
  }

  lemma {:induction false} PowerIsTens(k: nat)
    ensures Power(k) == Tens(k)
  {
    if k > 0 {
      PowerIsTens(k - 1);
    }
  }

  lemma DigitsInOrder(d: Digit)
    ensures DigitChar(d) == DIGITS[d] && IsDigit(DIGITS[d]) && DigitOf(DIGITS[d]) == d
  {
  }

  /** One digit stands for itself, and a row of digits in front of others for as many tens
      as there are others. */
  lemma {:induction false} PlacesCount(a: string, b: string)
    requires AllDigits(a) && AllDigits(b)
    ensures AllDigits(a + b) && ValueOf(a + b) == ValueOf(a) * Power(|b|) + ValueOf(b)
    ensures |a| == 1 ==> IsDigit(a[0]) && ValueOf(a) == DigitOf(a[0])
    decreases |b|
  {
    if |a| == 1 {
      assert a[0] in a && a[..0] == "";
    }
    if b == "" {
      assert a + b == a;
    } else {
      var front, last := b[..|b| - 1], b[|b| - 1];
      assert last in b;
      PlacesCount(a, front);
      assert (a + b)[..|a + b| - 1] == a + front;
      assert Power(|b|) == Power(|front|) * 10;
      hide Power, AllDigits;
      TenMore(ValueOf(a), ValueOf(front), Power(|front|), DigitOf(last));
    }
  }

  lemma TenMore(x: nat, y: nat, p: nat, d: nat)
    ensures (x * p + y) * 10 + d == x * (p * 10) + (y * 10 + d)
  {
  }

  /** The digits of a numeral, whole ones and fraction together. */
  function Digits(f: Form): string
    requires IsFraction(f.frac)
  {
    f.whole + if f.frac == "" then "" else f.frac[1..]
  }

  /** How many digits stand behind the point. */
  function Behind(f: Form): nat {
    if f.frac == "" then 0 else |f.frac| - 1
  }

  /** The exponent as it is written. */
  ghost predicate Shifted(f: Form, up: nat, down: nat)
    requires IsPower(f.power)
  {
    if f.power == "" then up == down == 0
    else if f.power[1] == '-' then up == 0 && AllDigits(f.power[2..]) && down == ValueOf(f.power[2..])
    else if f.power[1] == '+' then down == 0 && AllDigits(f.power[2..]) && up == ValueOf(f.power[2..])
    else down == 0 && AllDigits(f.power[1..]) && up == ValueOf(f.power[1..])
  }

  lemma ExponentIsShift(f: Form, up: nat, down: nat)
    requires IsPower(f.power) && Shifted(f, up, down)
    ensures Exponent(f) == up - down && (up == 0 || down == 0)
  {
    hide ValueOf;
    if f.power != "" {
      var x := f.power[1..];
      assert x[0] == f.power[1] && x[1..] == f.power[2..];
    }
  }

  lemma Inverse(t: real)
    requires t > 0.0
    ensures 1.0 / t * t == 1.0
  {
  }

  lemma Regrouped(x: real, y: real, z: real)
    ensures x * y * z == x * (y * z)
  {
  }

  lemma Spread(w: real, f: real, u: real, t: real)
    requires u * t == 1.0
    ensures (w + f * u) * t == w * t + f
  {
    Regrouped(f, u, t);
    assert (w + f * u) * t == w * t + f * u * t;
  }

  lemma {:induction false} ProductIsReal(x: nat, y: nat)
    ensures (x * y) as real == x as real * y as real
  {
    if x > 0 {
      ProductIsReal(x - 1, y);
      assert x * y == (x - 1) * y + y;
      assert x as real * y as real == ((x - 1) as real + 1.0) * y as real;
    }
  }

  /** The number before its sign and exponent. */
  function Unscaled(w: nat, b: nat, n: int): real { w as real + b as real * TenToThe(-n) }

  /** The part before the exponent, with its point moved to the end. */
  lemma PointMoves(w: nat, f: nat, n: int, d: nat)
    requires n >= 0 && d == w * Power(n) + f
    ensures Unscaled(w, f, n) * Power(n) as real == d as real
  {
    hide Power, TenToThe;
    ProductIsReal(w, Power(n));
    Powers(0, n);
    Spread(w as real, f as real, TenToThe(-n), Power(n) as real);
  }

  /** The digits `d`, with the point `n` places in and then moved out or in by the exponent. */
  predicate Places(v: real, sign: real, d: nat, n: nat, up: nat, down: nat) {
    v * Power(n) as real * Power(down) as real == sign * d as real * Power(up) as real
  }

  /** The number a numeral is read as: its digits, as one whole number, with the point moved in by the
      digits behind it and out or in by its exponent; below zero after a minus. */
  lemma NumeralMeans(f: Form, up: nat, down: nat)
    requires Accepted(f) && Shifted(f, up, down)
    ensures AllDigits(Digits(f)) && ToNum(Show(f)).Some?
    ensures Places(ToNum(Show(f)).value, if f.sign == "-" || f.sign == "-+" then -1.0 else 1.0, ValueOf(Digits(f)),
                   Behind(f), up, down)
  {
    hide ToNum, ValueOf, Power, Show, Shifted, Digits, Places, Scaled, IsPower;
    FormParses(f);
    DigitsTogether(f);
    ExponentIsShift(f, up, down);
    var sign := if f.sign == "-" || f.sign == "-+" then -1.0 else 1.0;
    assert sign == if f.sign != "" && f.sign[0] == '-' then -1.0 else 1.0;
    assert Meaning(f) == Scaled(sign, ValueOf(f.whole), Fraction(f), Behind(f), up - down);
    hide Meaning, Accepted, Fraction, Behind, Exponent;
    ScaledPlaces(sign, ValueOf(f.whole), Fraction(f), Behind(f), ValueOf(Digits(f)), up, down);
  }

  lemma ScaledPlaces(sign: real, w: nat, b: nat, n: int, d: nat, up: int, down: int)
    requires n >= 0 && up >= 0 && down >= 0 && (up == 0 || down == 0) && d == w * Power(n) + b
    ensures Places(Scaled(sign, w, b, n, up - down), sign, d, n, up, down)
  {
    hide TenToThe, Power, Scaled, Unscaled, Places;
    PointMoves(w, b, n, d);
    Powers(up, down);
    ScaledBy(sign, w, b, n, up - down);
    var u, t, p, q := TenToThe(up - down), Power(n) as real, Power(down) as real, Power(up) as real;
    Assembles(Scaled(sign, w, b, n, up - down), sign, Unscaled(w, b, n), u, t, d as real, p, q);
    PlacesBy(Scaled(sign, w, b, n, up - down), sign, d, n, up, down, t, p, q);
  }

  lemma PlacesBy(v: real, sign: real, d: nat, n: nat, up: nat, down: nat, t: real, p: real, q: real)
    requires t == Power(n) as real && p == Power(down) as real && q == Power(up) as real
    requires v * t * p == sign * d as real * q
    ensures Places(v, sign, d, n, up, down)
  {
    hide Power;
  }

  lemma ScaledBy(sign: real, w: nat, b: nat, n: int, e: int)
    ensures Scaled(sign, w, b, n, e) == sign * Unscaled(w, b, n) * TenToThe(e)
  {
  }

  lemma DigitsTogether(f: Form)
    requires AllDigits(f.whole) && IsFraction(f.frac)
    ensures AllDigits(Digits(f)) && ValueOf(Digits(f)) == ValueOf(f.whole) * Power(Behind(f)) + Fraction(f)
  {
    hide ValueOf, Power;
    var rest := if f.frac == "" then "" else f.frac[1..];
    PlacesCount(f.whole, rest);
    NoDigits(f);
  }

  lemma NoDigits(f: Form)
    requires IsFraction(f.frac)
    ensures ValueOf(if f.frac == "" then "" else f.frac[1..]) == Fraction(f)
  {
    ValueOfNone();
  }

  /** A number with its point `t` in, shifted up by `u`. */
  lemma ShiftsUp(s: real, m: real, u: real, t: real, d: real)
    requires m * t == d
    ensures s * m * u * t == s * d * u
  {
    Exchanged(s * m, u, t);
    Regrouped(s, m, t);
  }

  /** Shifted down. */
  lemma ShiftsDown(s: real, m: real, u: real, t: real, d: real, p: real)
    requires m * t == d && u * p == 1.0
    ensures s * m * u * t * p == s * d
  {
    ShiftsUp(s, m, u, t, d);
    Regrouped(s * d, u, p);
  }

  lemma Powers(up: int, down: int)
    requires up >= 0 && down >= 0 && (up == 0 || down == 0)
    ensures down == 0 ==> Power(down) as real == 1.0 && TenToThe(up - down) == Power(up) as real
    ensures down > 0 ==> Power(up) as real == 1.0 && TenToThe(up - down) * Power(down) as real == 1.0
  {
    hide TenToThe, Tens, Power;
    TensNone();
    PowerIsTens(up);
    PowerIsTens(down);
    if down == 0 {
      PowerUp(up);
    } else {
      PowerDown(down);
    }
  }

  lemma TensNone()
    ensures Tens(0) == 1
  {
  }

  lemma PowerUp(e: int)
    requires e >= 0
    ensures TenToThe(e) == Tens(e) as real
  {
    hide Tens;
  }

  lemma PowerDown(e: int)
    requires e > 0
    ensures TenToThe(-e) * Tens(e) as real == 1.0
  {
    hide Tens;
    Inverse(Tens(e) as real);
  }

  lemma Assembles(v: real, s: real, m: real, u: real, t: real, d: real, p: real, q: real)
    requires v == s * m * u && m * t == d && ((p == 1.0 && u == q) || (q == 1.0 && u * p == 1.0))
    ensures v * t * p == s * d * q
  {
    if q == 1.0 && u * p == 1.0 {
      ShiftsDown(s, m, u, t, d, p);
      One(s * d, q);
    } else {
      ShiftsUp(s, m, u, t, d);
      One(v * t, p);
    }
  }

  lemma One(x: real, y: real)
    ensures y == 1.0 ==> x * y == x
  {
  }

  lemma Exchanged(x: real, y: real, z: real)
    ensures x * y * z == x * z * y
  {
  }

  lemma ValueGrows(s: string, c: char, v: nat)
    requires AllDigits(s) && ValueOf(s) == v && IsDigit(c)
    ensures AllDigits(s + [c]) && ValueOf(s + [c]) == v * 10 + DigitOf(c)
  {
    assert (s + [c])[..|s|] == s;
  }

  lemma SomeValues()
    ensures AllDigits("1") && ValueOf("1") == 1 && AllDigits("5") && ValueOf("5") == 5
    ensures AllDigits("25") && ValueOf("25") == 25 && AllDigits("05") && ValueOf("05") == 5
    ensures AllDigits("125") && ValueOf("125") == 125 && AllDigits("3") && ValueOf("3") == 3
    ensures AllDigits("2") && ValueOf("2") == 2 && AllDigits("0")
  {
    hide ValueOf;
    ValueOfNone();
    ValueGrows("", '1', 0);
    ValueGrows("", '2', 0);
    ValueGrows("", '3', 0);
    ValueGrows("", '5', 0);
    ValueGrows("", '0', 0);
    assert "" + "1" == "1" && "" + "2" == "2" && "" + "3" == "3" && "" + "5" == "5" && "" + "0" == "0";
    assert "0" + "5" == "05" && "2" + "5" == "25" && "1" + "2" == "12" && "12" + "5" == "125";
    ValueGrows("0", '5', 0);
    ValueGrows("2", '5', 2);
    ValueGrows("1", '2', 1);
    ValueGrows("12", '5', 12);
  }

  /** A numeral with a known number of digits, point and exponent. */
  lemma ReadsAs(f: Form, s: string, d: nat, n: nat, up: nat, down: nat, v: real)
    requires Accepted(f) && Show(f) == s && Shifted(f, up, down) && Behind(f) == n
    requires AllDigits(Digits(f)) && ValueOf(Digits(f)) == d
    requires Places(v, if f.sign == "-" || f.sign == "-+" then -1.0 else 1.0, d, n, up, down)
    ensures ToNum(s) == Some(v)
  {
    hide ToNum, ValueOf, Power, Show, Accepted, Places, Shifted;
    NumeralMeans(f, up, down);
    OneNumber(v, ToNum(s).value, if f.sign == "-" || f.sign == "-+" then -1.0 else 1.0, d, n, up, down);
  }

  /** Places fix the number. */
  lemma OneNumber(x: real, y: real, sign: real, d: nat, n: nat, up: nat, down: nat)
    requires Places(x, sign, d, n, up, down) && Places(y, sign, d, n, up, down)
    ensures x == y
  {
    hide Power;
    var a, b, z := Power(n) as real, Power(down) as real, sign * d as real * Power(up) as real;
    assert x * a * b == z && y * a * b == z;
    Cancels(x, y, a, b, z);
  }

  lemma Cancels(x: real, y: real, a: real, b: real, z: real)
    requires a > 0.0 && b > 0.0 && x * a * b == z && y * a * b == z
    ensures x == y
  {
    var c := a * b;
    Regrouped(x, a, b);
    Regrouped(y, a, b);
    assert (x - y) * c == 0.0;
  }

  lemma SomePlaces()
    ensures Places(1000.0, 1.0, 1, 0, 3, 0) && Places(2.5, 1.0, 25, 0, 0, 1) && Places(0.125, 1.0, 125, 3, 0, 0)
    ensures Places(-0.5, -1.0, 5, 1, 0, 0) && Places(100.0, 1.0, 1, 0, 2, 0)
  {
    SomePowers();
    hide Power;
  }

  lemma SomePowers()
    ensures Power(0) == 1 && Power(1) == 10 && Power(2) == 100 && Power(3) == 1000
  {
    assert Power(1) == 10 && Power(2) == 100;
  }

  /** `1e3`, `25e-1`, `.125`, `-0.5` and `1e+2`. */
  lemma SomeNumerals()
    ensures ToNum("1e3") == Some(1000.0) && ToNum("25e-1") == Some(2.5) && ToNum(".125") == Some(0.125)
    ensures ToNum("-0.5") == Some(-0.5) && ToNum("1e+2") == Some(100.0)
  {
    hide ToNum, ValueOf, Power, AllDigits;
    SomeValues();
    SomePowers();
    ValueOfNone();
    var a, b, c := Form("", "1", "", "e3"), Form("", "25", "", "e-1"), Form("", "", ".125", "");
    var d, e := Form("-", "0", ".5", ""), Form("", "1", "", "e+2");
    NoDigitsAtAll();
    SomePlaces();
    hide Places;
    assert Show(a) == "1e3" && "e3"[1..] == "3" && Digits(a) == "1";
    assert Show(b) == "25e-1" && "e-1"[1..] == "-1" && "e-1"[2..] == "1" && "-1"[1..] == "1" && Digits(b) == "25";
    assert Show(c) == ".125" && ".125"[1..] == "125" && Digits(c) == "125";
    assert Show(d) == "-0.5" && ".5"[1..] == "5" && Digits(d) == "05";
    assert Show(e) == "1e+2" && "e+2"[1..] == "+2" && "e+2"[2..] == "2" && "+2"[1..] == "2" && Digits(e) == "1";
    ReadsAs(a, "1e3", 1, 0, 3, 0, 1000.0);
    ReadsAs(b, "25e-1", 25, 0, 0, 1, 2.5);
    ReadsAs(c, ".125", 125, 3, 0, 0, 0.125);
    ReadsAs(d, "-0.5", 5, 1, 0, 0, -0.5);
    ReadsAs(e, "1e+2", 1, 0, 2, 0, 100.0);
  }

  lemma NoDigitsAtAll()
    ensures AllDigits("")
  {
  }
}
