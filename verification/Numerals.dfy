/** Parsing numerals: what is accepted and what it stands for. */
module Numerals {
  import opened Basics
  import opened Decimal

  /** How many digits there are from `i` on. */
  function DigitsAt(s: string, i: nat): (n: nat)
    requires i <= |s|
    ensures i + n <= |s| && AllDigits(s[i..i + n])
    ensures i + n < |s| ==> !IsDigit(s[i + n])
    decreases |s| - i
  {
    if i < |s| && IsDigit(s[i]) then
      assert s[i..i + 1 + DigitsAt(s, i + 1)] == [s[i]] + s[i + 1..i + 1 + DigitsAt(s, i + 1)];
      1 + DigitsAt(s, i + 1)
    else 0
  }

  /** The index behind the digits at `i` and their value; no digits stand for zero. */
  function DecAt(s: string, i: nat): (r: (nat, nat))
    ensures r.0 <= |s|
  {
    if i >= |s| then (|s|, 0) else (i + DigitsAt(s, i), ValueOf(s[i..i + DigitsAt(s, i)]))
  }

  /** The index behind a sign and digits at `i` and their value. A bare sign is read as zero. */
  function SignedAt(s: string, i: nat): (r: (nat, int))
    requires i <= |s|
    ensures i <= r.0 <= |s|
  {
    if i == |s| then (|s|, 0)
    else
      var j := if s[i] == '+' || s[i] == '-' then i + 1 else i;
      var (k, n) := DecAt(s, j);
      var v: int := n;
      (k, if s[i] == '-' then -v else v)
  }

  function TenToThe(e: int): real {
    if e >= 0 then Tens(e) as real else 1.0 / Tens(-e) as real
  }

  /** The number a whole string stands for, if it is a numeral. */
  function ToNum(s: string): Option<real> {
    if s in [".", "-", "+"] then None
    else if |s| > 1 && s[0] == '-' && s[1] != '-' then Unsigned(s[1..], -1.0)
    else Unsigned(s, 1.0)
  }

  function Scaled(sgn: real, val: int, frac: int, fraclen: int, exp: int): real {
    sgn * (val as real + frac as real * TenToThe(-fraclen)) * TenToThe(exp)
  }

  function Unsigned(s: string, sign: real): Option<real> {
    var (i, v) := SignedAt(s, 0);
    var sgn, val := if v < 0 then -1.0 else sign, if v < 0 then -v else v;
    var (j, frac) := if i < |s| && s[i] == '.' then DecAt(s, i + 1) else (i, 0);
    var fraclen := if i < |s| && s[i] == '.' then j - (i + 1) else 0;
    var power := j < |s| && (s[j] == 'e' || s[j] == 'E');
    var (k, exp) := if power then SignedAt(s, j + 1) else (j, 0);
    if j == 0 || (power && k == j + 1) || k < |s| then None else Some(Scaled(sgn, val, frac, fraclen, exp))
  }

  method ReadDec(s: string, start: nat) returns (i: nat, v: nat)
    ensures (i, v) == DecAt(s, start)
  {
    hide ValueOf;
    v, i := 0, start;
    if i >= |s| { return |s|, 0; }
    assert s[start..start] == [];
    ValueOfNone();
    while i < |s| && '0' <= s[i] <= '9'
      invariant start <= i <= |s| && AllDigits(s[start..i]) && v == ValueOf(s[start..i])
      invariant DigitsAt(s, start) == i - start + DigitsAt(s, i)
    {
      NextDigit(s, start, i);
      v := v * 10 + (s[i] - '0') as int;
      i := i + 1;
    }
  }

  lemma NextDigit(s: string, start: nat, i: nat)
    requires start <= i < |s| && IsDigit(s[i]) && AllDigits(s[start..i])
    ensures AllDigits(s[start..i + 1]) && ValueOf(s[start..i + 1]) == ValueOf(s[start..i]) * 10 + DigitOf(s[i])
  {
    assert s[start..i + 1] == s[start..i] + [s[i]];
    assert s[start..i + 1][..i - start] == s[start..i];
  }

  method ReadSigned(s: string, start: nat) returns (i: nat, v: int)
    requires start <= |s|
    ensures (i, v) == SignedAt(s, start)
  {
    i := start;
    if i >= |s| { return |s|, 0; }
    var sgn: int := 1;
    if s[i] == '+' {
      i := i + 1;
    } else if s[i] == '-' {
      i := i + 1;
      sgn := -1;
    }
    var i2, val := ReadDec(s, i);
    if start == i && i2 == i { return start, 0; }
    i, v := i2, sgn * val;
  }

  method ParseUnsigned(s: string, sign: real) returns (r: Option<real>)
    ensures r == Unsigned(s, sign)
  {
    hide SignedAt, DecAt, Scaled;
    var sgn := sign;
    var i, val := ReadSigned(s, 0);
    if val < 0 {
      sgn := -1.0;
      val := -val;
    }
    var frac: int, fraclen: int, exp: int := 0, 0, 0;
    if i < |s| && s[i] == '.' {
      i := i + 1;
      var next;
      next, frac := ReadDec(s, i);
      fraclen := next - i;
      i := i + fraclen;
    }
    if i == 0 { return None; }
    if i < |s| && (s[i] == 'e' || s[i] == 'E') {
      var i0 := i + 1;
      i, exp := ReadSigned(s, i + 1);
      if i == i0 { return None; }
    }
    r := Some(Scaled(sgn, val, frac, fraclen, exp));
    if i < |s| { return None; }
  }

  lemma TenToTheNone()
    ensures TenToThe(0) == 1.0
  {
  }

  // ----- what is accepted -----

  predicate IsSign(c: char) { c == '+' || c == '-' }

  predicate IsMark(c: char) { c == 'e' || c == 'E' }

  /** A numeral as it is read: signs, whole digits, a point with digits, an exponent. */
  datatype Form = Form(sign: string, whole: string, frac: string, power: string)

  function Show(f: Form): string { f.sign + f.whole + f.frac + f.power }

  predicate IsFraction(x: string) { x != "" ==> x[0] == '.' && AllDigits(x[1..]) }

  /** Digits with or without a sign, or a sign with no digits. */
  predicate IsSigned(x: string) { AllDigits(if x != "" && IsSign(x[0]) then x[1..] else x) }

  predicate IsPower(x: string) { x != "" ==> |x| > 1 && IsMark(x[0]) && IsSigned(x[1..]) }

  /** The language: a minus, or a plus, or a plus after a minus; and no digit needed
      anywhere but after an exponent mark without a sign. Only three strings of one
      character are left out. */
  predicate Accepted(f: Form) {
    && f.sign in ["", "-", "+", "-+"] && AllDigits(f.whole) && IsFraction(f.frac) && IsPower(f.power)
    && (f.sign == "+" || f.sign == "-+" || f.whole != "" || f.frac != "")
    && Show(f) != "." && Show(f) != "+"
  }

  function SignedValue(x: string): int
    requires IsSigned(x)
  {
    if x == "" then 0
    else if x[0] == '-' then -(ValueOf(x[1..]) as int)
    else if x[0] == '+' then ValueOf(x[1..])
    else ValueOf(x)
  }

  function Fraction(f: Form): nat
    requires IsFraction(f.frac)
  {
    if f.frac == "" then 0 else ValueOf(f.frac[1..])
  }

  function Exponent(f: Form): int
    requires IsPower(f.power)
  {
    if f.power == "" then 0 else SignedValue(f.power[1..])
  }

  /** The number that a numeral stands for. */
  function Meaning(f: Form): real
    requires Accepted(f)
  {
    Scaled(if f.sign != "" && f.sign[0] == '-' then -1.0 else 1.0, ValueOf(f.whole), Fraction(f),
           |f.frac| - (if f.frac == "" then 0 else 1), Exponent(f))
  }

  /** Digits up to something else are read as they stand. */
  lemma {:induction false} DigitsRead(s: string, i: nat, n: nat)
    requires i + n <= |s| && AllDigits(s[i..i + n]) && (i + n < |s| ==> !IsDigit(s[i + n]))
    ensures DigitsAt(s, i) == n
    decreases n
  {
    if n > 0 {
      assert s[i..i + n][0] in s[i..i + n];
      assert s[i + 1..i + n] == s[i..i + n][1..];
      DigitsRead(s, i + 1, n - 1);
    }
  }

  lemma DecReads(s: string, i: nat, x: string)
    requires i + |x| <= |s| && s[i..i + |x|] == x && AllDigits(x) && (i + |x| < |s| ==> !IsDigit(s[i + |x|]))
    ensures DecAt(s, i) == (i + |x|, ValueOf(x))
  {
    hide ValueOf, DigitsAt, DecAt, AllDigits, IsDigit;
    var n := |x|;
    assert s[i..i + n] == x;
    if i < |s| {
      DigitsRead(s, i, n);
      DecIs(s, i, n);
    } else {
      NoDec(s, x);
    }
  }

  lemma DecIs(s: string, i: nat, n: nat)
    requires i < |s| && DigitsAt(s, i) == n
    ensures i + n <= |s| && AllDigits(s[i..i + n]) && DecAt(s, i) == (i + n, ValueOf(s[i..i + n]))
  {
    hide ValueOf, DigitsAt;
  }

  lemma NoDec(s: string, x: string)
    requires x == ""
    ensures AllDigits(x) && DecAt(s, |s|) == (|s|, ValueOf(x))
  {
  }

  lemma SignedReads(s: string, i: nat, x: string)
    requires i + |x| <= |s| && s[i..i + |x|] == x && IsSigned(x)
    requires i + |x| < |s| ==> !IsDigit(s[i + |x|]) && (x == "" ==> !IsSign(s[i]))
    ensures SignedAt(s, i) == (i + |x|, SignedValue(x))
  {
    hide DecAt;
    if x == "" {
      if i < |s| {
        DecReads(s, i, x);
      }
    } else {
      assert s[i] == x[0];
      if IsSign(x[0]) {
        assert s[i + 1..i + 1 + |x[1..]|] == x[1..];
        DecReads(s, i + 1, x[1..]);
      } else {
        DecReads(s, i, x);
      }
    }
  }

  /** A sign is never left where it stands: only where neither a digit nor a sign
      is does reading not move. */
  lemma SignedStays(s: string, i: nat)
    requires i < |s|
    ensures SignedAt(s, i).0 == i <==> !IsDigit(s[i]) && !IsSign(s[i])
  {
  }

  /** The marks between the parts of a numeral are neither digits nor signs. */
  lemma MarksBetween(frac: string, power: string)
    requires IsFraction(frac) && IsPower(power)
    ensures frac != "" ==> frac[0] == '.' && AllDigits(frac[1..])
    ensures power != "" ==> IsMark(power[0]) && power[1..] != "" && IsSigned(power[1..])
    ensures frac + power != "" ==> !IsDigit((frac + power)[0]) && !IsSign((frac + power)[0])
    ensures power != "" && frac == "" ==> (frac + power)[0] != '.'
  {
    hide IsSigned;
    if frac == "" {
      assert frac + power == power;
    }
  }

  lemma WholeReads(y: string, frac: string, power: string)
    requires IsSigned(y) && IsFraction(frac) && IsPower(power)
    ensures SignedAt(y + frac + power, 0) == (|y|, SignedValue(y))
  {
    hide SignedAt, IsSigned, IsFraction, IsPower, SignedValue;
    var s := y + frac + power;
    MarksBetween(frac, power);
    assert s == y + (frac + power);
    assert s[0..|y|] == y && s[|y|..] == frac + power;
    SignedReads(s, 0, y);
  }

  lemma FracReads(y: string, frac: string, power: string)
    requires frac != "" && IsFraction(frac) && IsPower(power)
    ensures DecAt(y + frac + power, |y| + 1) == (|y| + |frac|, ValueOf(frac[1..]))
  {
    hide DecAt, IsSigned, ValueOf;
    var s, i := y + frac + power, |y| + 1;
    assert s[i..i + |frac[1..]|] == frac[1..] && s[|y| + |frac|..] == power;
    DecReads(s, i, frac[1..]);
  }

  lemma PowerReads(z: string, power: string)
    requires power != "" && IsPower(power)
    ensures SignedAt(z + power, |z| + 1) == (|z + power|, SignedValue(power[1..]))
  {
    hide SignedAt, IsSigned, SignedValue;
    var s, i := z + power, |z| + 1;
    assert s[i..i + |power[1..]|] == power[1..];
    SignedReads(s, i, power[1..]);
  }

  /** What the reads of the parts come to. */
  lemma ReadTogether(s: string, sign: real, i: nat, val: nat, j: nat, frac: nat, exp: int)
    requires SignedAt(s, 0) == (i, val as int) && 0 != j <= |s|
    requires if i < |s| && s[i] == '.' then DecAt(s, i + 1) == (j, frac) else j == i && frac == 0
    requires if j < |s| then IsMark(s[j]) && j + 1 < |s| && SignedAt(s, j + 1) == (|s|, exp) else exp == 0
    ensures Unsigned(s, sign) == Some(Scaled(sign, val, frac, if i < |s| && s[i] == '.' then j - (i + 1) else 0, exp))
  {
    hide SignedAt, DecAt, Scaled;
  }

  /** The parts of a numeral without its minus are read one after another. */
  lemma UnsignedReads(plus: string, f: Form, sign: real)
    requires (plus == "" || plus == "+") && AllDigits(f.whole) && IsFraction(f.frac) && IsPower(f.power)
    requires plus + f.whole + f.frac != ""
    ensures Unsigned(plus + f.whole + f.frac + f.power, sign)
            == Some(Scaled(sign, ValueOf(f.whole), Fraction(f), |f.frac| - (if f.frac == "" then 0 else 1),
                           Exponent(f)))
  {
    hide SignedAt, DecAt, ValueOf, Scaled, SignedValue, AllDigits, IsSigned, IsFraction, IsPower, Unsigned;
    var y := plus + f.whole;
    var z := y + f.frac;
    var s := z + f.power;
    assert s[|z|..] == f.power;
    assert f.frac != "" ==> s[|y|] == f.frac[0];
    assert f.frac == "" && f.power != "" ==> s[|y|] == f.power[0];
    MarksBetween(f.frac, f.power);
    WholeSigned(plus, f.whole);
    WholeReads(y, f.frac, f.power);
    if f.frac != "" {
      FracReads(y, f.frac, f.power);
    }
    if f.power != "" {
      assert s[|z|] == f.power[0];
      PowerReads(z, f.power);
    }
    ReadTogether(s, sign, |y|, ValueOf(f.whole), |z|, Fraction(f), Exponent(f));
  }

  lemma ValueOfNone()
    ensures ValueOf("") == 0
  {
  }

  lemma WholeSigned(plus: string, whole: string)
    requires (plus == "" || plus == "+") && AllDigits(whole)
    ensures IsSigned(plus + whole) && SignedValue(plus + whole) == ValueOf(whole)
    ensures plus + whole == "" ==> plus == ""
  {
    if plus == "+" {
      assert (plus + whole)[1..] == whole;
    } else {
      assert plus + whole == whole;
      if whole != "" {
        assert whole[0] in whole;
      }
    }
  }

  /** Every numeral of the language is parsed, to the number it stands for. */
  lemma FormParses(f: Form)
    requires Accepted(f)
    ensures ToNum(Show(f)) == Some(Meaning(f))
  {
    hide Unsigned, Scaled, ValueOf, SignedValue, IsSigned, IsFraction, IsPower;
    var rest := f.whole + f.frac + f.power;
    if f.sign == "" || f.sign == "+" {
      assert Show(f) == f.sign + f.whole + f.frac + f.power;
      UnsignedReads(f.sign, f, 1.0);
      NoMinus(f);
    } else {
      var plus := f.sign[1..];
      assert Show(f) == "-" + (plus + f.whole + f.frac + f.power);
      assert Show(f)[1..] == plus + f.whole + f.frac + f.power;
      UnsignedReads(plus, f, -1.0);
      NoMinus(f.(sign := plus));
    }
  }

  /** A numeral without its minus does not start with one. */
  lemma NoMinus(f: Form)
    requires (f.sign == "" || f.sign == "+") && AllDigits(f.whole) && IsFraction(f.frac)
    requires f.sign + f.whole + f.frac != ""
    ensures Show(f) != "" && Show(f)[0] != '-'
  {
    if f.sign == "" {
      if f.whole != "" {
        assert f.whole[0] in f.whole;
        assert Show(f)[0] == f.whole[0];
      } else {
        assert Show(f)[0] == f.frac[0];
      }
    }
  }

  /** Whatever is parsed is a numeral of the language. */
  lemma ParsedIsForm(s: string) returns (f: Form)
    requires ToNum(s).Some?
    ensures Accepted(f) && Show(f) == s
  {
    hide Unsigned, IsSigned, AllDigits, IsFraction, IsPower;
    if |s| > 1 && s[0] == '-' && s[1] != '-' {
      var g := UnsignedIsForm(s[1..], -1.0);
      f := g.(sign := "-" + g.sign);
      assert f.sign == if g.sign == "" then "-" else "-+";
      MinusForm(g, s);
    } else {
      if s != "" && s[0] == '-' {
        DashIsNone(s);
      }
      f := UnsignedIsForm(s, 1.0);
    }
  }

  lemma MinusForm(g: Form, s: string)
    requires |s| > 1 && s[0] == '-' && Show(g) == s[1..]
    ensures Show(g.(sign := "-" + g.sign)) == s
  {
    assert s == "-" + s[1..];
    assert "-" + g.sign + g.whole + g.frac + g.power == "-" + (g.sign + g.whole + g.frac + g.power);
  }

  lemma DashIsNone(s: string)
    requires s != "" && s[0] == '-' && (|s| > 1 ==> s[1] == '-')
    ensures ToNum(s).None?
  {
    hide Scaled;
    if |s| == 1 {
      assert s == "-";
    }
  }

  lemma UnsignedIsForm(s: string, sign: real) returns (f: Form)
    requires Unsigned(s, sign).Some? && (s != "" ==> s[0] != '-')
    ensures (f.sign == "" || f.sign == "+") && AllDigits(f.whole) && IsFraction(f.frac) && IsPower(f.power)
    ensures f.sign + f.whole + f.frac != "" && Show(f) == s
  {
    hide Scaled, ValueOf, SignedAt, DecAt, IsSigned, AllDigits;
    var i := SignedAt(s, 0).0;
    WholeIs(s);
    var j := i;
    if i < |s| && s[i] == '.' {
      j := DecAt(s, i + 1).0;
      FracIs(s, i);
      assert s[i..j][1..] == s[i + 1..j];
    }
    if j < |s| {
      PowerRead(s, j);
    }
    var p := if s != "" && s[0] == '+' then 1 else 0;
    f := Form(s[..p], s[p..i], s[i..j], s[j..]);
    assert s[..p] == if p == 1 then "+" else "";
    assert f.sign + f.whole == s[..i] && f.sign + f.whole + f.frac == s[..j];
    assert s == s[..j] + s[j..];
  }

  lemma WholeIs(s: string)
    requires s != "" ==> s[0] != '-'
    ensures var i, p := SignedAt(s, 0).0, if s != "" && s[0] == '+' then 1 else 0;
            p <= i && AllDigits(s[p..i])
  {
  }

  lemma FracIs(s: string, i: nat)
    requires i < |s|
    ensures i + 1 <= DecAt(s, i + 1).0 && AllDigits(s[i + 1..DecAt(s, i + 1).0])
  {
  }

  lemma PowerRead(s: string, j: nat)
    requires j < |s| && IsMark(s[j]) && SignedAt(s, j + 1).0 == |s| != j + 1
    ensures IsPower(s[j..])
  {
    hide ValueOf;
    var x := s[j..][1..];
    assert x == s[j + 1..] && x != "";
    assert x[0] == s[j + 1];
    if IsSign(x[0]) {
      assert x[1..] == s[j + 2..];
    }
  }

  /** The language of numerals: exactly the strings of the forms above are accepted. */
  lemma ParsedIff(s: string)
    ensures ToNum(s).Some? <==> exists f :: Accepted(f) && Show(f) == s
  {
    hide ToNum, Accepted, Show;
    if ToNum(s).Some? {
      var f := ParsedIsForm(s);
    }
    if f :| Accepted(f) && Show(f) == s {
      FormParses(f);
    }
  }

  // ----- round trip -----

  /** Every digit string, with or without a minus sign, is a numeral and gives its value. */
  lemma DigitsParse(s: string)
    requires s != [] && AllDigits(s)
    ensures ToNum(s) == Some(ValueOf(s) as real)
    ensures ToNum(['-'] + s) == Some(-(ValueOf(s) as real))
  {
    hide ToNum, ValueOf, AllDigits, Scaled;
    assert IsDigit(s[0]) by { FirstDigit(s); }
    ScaledWhole(1.0, ValueOf(s));
    ScaledWhole(-1.0, ValueOf(s));
    var f, g := Form("", s, "", ""), Form("-", s, "", "");
    assert Show(f) == s && Show(g) == ['-'] + s;
    FormParses(f);
    FormParses(g);
  }

  lemma ScaledWhole(sign: real, v: nat)
    ensures Scaled(sign, v, 0, 0, 0) == sign * v as real
  {
    TenToTheNone();
  }

  lemma FirstDigit(s: string)
    requires s != [] && AllDigits(s)
    ensures IsDigit(s[0])
  {
    assert s[0] in s;
  }

  /** Whatever `FromInt` prints is parsed back to the same number. */
  lemma PrintedParses(v: int)
    ensures ToNum(Printed(v)) == Some(v as real)
  {
    hide ToNum, Numeral, ValueOf;
    if v < 0 {
      NumeralStandsFor(-v);
      DigitsParse(Numeral(-v));
    } else {
      NumeralStandsFor(v);
      DigitsParse(Numeral(v));
    }
  }

  // ----- signs without digits -----

  /** No digit comes before the next exponent mark or the end. */
  predicate Digitless(s: string, i: nat)
    decreases |s| - i
  {
    i >= |s| || IsMark(s[i]) || (!IsDigit(s[i]) && Digitless(s, i + 1))
  }

  predicate HasBareSign(s: string) { exists i :: 0 <= i < |s| && IsSign(s[i]) && Digitless(s, i + 1) }

  const BARE_SIGNS := ["+", "-+", "-.", "+.", "-+."]

  predicate EndsInSign(f: Form) { |f.power| == 2 && IsSign(f.power[1]) }

  /** A bare sign is parsed, against the comment in the source, and these are all the
      cases: the number before the exponent is nothing but signs and a point, or the
      exponent is nothing but a sign. */
  lemma BareSignIff(f: Form)
    requires Accepted(f)
    ensures HasBareSign(Show(f)) <==> f.sign + f.whole + f.frac in BARE_SIGNS || EndsInSign(f)
  {
    var s, m := Show(f), f.sign + f.whole + f.frac;
    if m in BARE_SIGNS {
      BareIsBare(f);
    } else if EndsInSign(f) {
      assert s[|m| + 1] == f.power[1] && Digitless(s, |s|);
    } else if HasBareSign(s) {
      var i :| 0 <= i < |s| && IsSign(s[i]) && Digitless(s, i + 1);
      if i < |m| {
        BareInNumber(f, i);
      } else {
        BareInPower(f, i);
      }
    }
  }

  lemma BareIsBare(f: Form)
    requires Accepted(f) && f.sign + f.whole + f.frac in BARE_SIGNS
    ensures HasBareSign(Show(f))
  {
    var s, m := Show(f), f.sign + f.whole + f.frac;
    assert s == m + f.power;
    var i := if m[0] == '-' && m[1] == '+' then 1 else 0;
    assert IsSign(s[i]) && Digitless(s, |m|);
    assert i + 1 < |m| ==> !IsDigit(s[i + 1]) && Digitless(s, i + 1);
  }

  lemma {:induction false} DigitlessUpTo(s: string, i: nat, k: nat)
    requires Digitless(s, i) && i <= k < |s| && (forall j :: i <= j <= k ==> !IsMark(s[j]))
    ensures !IsDigit(s[k])
    decreases k - i
  {
    if i < k {
      DigitlessUpTo(s, i + 1, k);
    }
  }

  lemma BareInNumber(f: Form, i: nat)
    requires Accepted(f) && i < |f.sign + f.whole + f.frac| && IsSign(Show(f)[i]) && Digitless(Show(f), i + 1)
    ensures f.sign + f.whole + f.frac in BARE_SIGNS
  {
    hide Digitless, IsPower, AllDigits;
    var s, n := Show(f), |f.sign|;
    if i >= n {
      NoSignBehind(f, i);
    }
    assert forall j :: 0 <= j < n ==> s[j] == f.sign[j];
    if f.whole != "" {
      FirstDigits(f);
      DigitlessUpTo(s, i + 1, n);
    } else if |f.frac| > 1 {
      FirstDigits(f);
      DigitlessUpTo(s, i + 1, n + 1);
    }
    assert f.whole == "" && (f.frac == "" || f.frac == ".");
    assert f.sign + f.whole + f.frac == if f.frac == "" then f.sign else f.sign + ".";
    assert "-" + "." == "-." && "+" + "." == "+." && "-+" + "." == "-+.";
  }

  /** Before the exponent only the signs are signs. */
  lemma NoSignBehind(f: Form, i: nat)
    requires Accepted(f) && |f.sign| <= i < |f.sign + f.whole + f.frac|
    ensures !IsSign(Show(f)[i])
  {
    var s, n, k := Show(f), |f.sign|, |f.sign| + |f.whole|;
    if i < k {
      assert s[i] == f.whole[i - n] && f.whole[i - n] in f.whole;
    } else {
      assert s[i] == f.frac[i - k];
      if i > k {
        assert f.frac[i - k] == f.frac[1..][i - k - 1] && f.frac[i - k] in f.frac[1..];
      }
    }
  }

  lemma FirstDigits(f: Form)
    requires Accepted(f)
    ensures f.whole != "" ==> IsDigit(Show(f)[|f.sign|])
    ensures f.whole == "" && |f.frac| > 1 ==> Show(f)[|f.sign|] == '.' && IsDigit(Show(f)[|f.sign| + 1])
  {
    var s, n := Show(f), |f.sign|;
    if f.whole != "" {
      assert s[n] == f.whole[0] && f.whole[0] in f.whole;
    } else if |f.frac| > 1 {
      assert s[n + 1] == f.frac[1] && f.frac[1] == f.frac[1..][0] && f.frac[1] in f.frac[1..];
    }
  }

  lemma BareInPower(f: Form, i: nat)
    requires Accepted(f) && |f.sign + f.whole + f.frac| <= i < |Show(f)|
    requires IsSign(Show(f)[i]) && Digitless(Show(f), i + 1)
    ensures EndsInSign(f)
  {
    hide IsFraction, AllDigits;
    var s, m := Show(f), |f.sign + f.whole + f.frac|;
    PowerDigits(f);
    assert s[i] == f.power[i - m];
  }

  /** In an exponent only the second character can be a sign; the others are digits. */
  lemma PowerDigits(f: Form)
    requires Accepted(f)
    ensures f.power != "" ==> !IsSign(f.power[0])
    ensures forall k :: 2 <= k < |f.power| ==> IsDigit(f.power[k])
    ensures |f.power| > 2 ==> IsDigit(Show(f)[|f.sign + f.whole + f.frac| + 2])
  {
    forall k | 2 <= k < |f.power|
      ensures IsDigit(f.power[k])
    {
      var x := f.power[1..];
      assert f.power[k] == x[k - 1] && f.power[k] in x;
      assert f.power[k] == x[1..][k - 2] && f.power[k] in x[1..];
    }
  }

  /** Strings that are numbers though no digit follows the sign. */
  lemma BareSignsAreRead()
    ensures ToNum("-+") == Some(0.0) && ToNum("+.") == Some(0.0) && ToNum("1e+") == Some(1.0)
  {
    hide ToNum;
    ValueOfNone();
    TenToTheNone();
    var a, b, c := Form("-+", "", "", ""), Form("+", "", ".", ""), Form("", "1", "", "e+");
    assert "+"[1..] == "" && "e+"[1..] == "+" && "."[1..] == "";
    assert ['1'][..0] == [] && ValueOf("1") == 1;
    FormParses(a);
    FormParses(b);
    FormParses(c);
    assert Show(a) == "-+" && Show(b) == "+." && Show(c) == "1e+";
  }

  /** Parses a whole string. */
  method Parse(str: string) returns (r: Option<real>)
    ensures r == ToNum(str)
    ensures r.Some? <==> exists f :: Accepted(f) && Show(f) == str
    ensures forall f :: Accepted(f) && Show(f) == str ==> r == Some(Meaning(f))
  {
    hide Accepted, Show, Meaning, Unsigned;
    ParsedIff(str);
    forall f | Accepted(f) && Show(f) == str
      ensures ToNum(str) == Some(Meaning(f))
    {
      FormParses(f);
    }
    var s, sgn := str, 1.0;
    if |s| == 1 && (s[0] == '.' || s[0] == '-' || s[0] == '+') {
      assert s == [s[0]];
      return None;
    }
    if |s| > 1 && s[0] == '-' && s[1] != '-' {
      sgn := -1.0;
      s := s[1..];
    }
    r := ParseUnsigned(s, sgn);
  }
}
