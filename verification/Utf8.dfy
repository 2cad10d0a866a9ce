/** The UTF-8 codec in its original one to six byte form, with overlong forms rejected
    (section 2 of RFC 2279). */
module Utf8 {
  import opened Basics

  type Byte = b: int | 0 <= b < 0x100
  type Word = c: int | 0 <= c < 0x1_0000_0000

  /** A character that the six-byte form can hold. */
  type Char = c: int | 0 <= c < 0x8000_0000

  /** The bytes needed for a character. */
  function CBytes(c: Word): (n: nat)
    ensures 1 <= n <= 6
  {
    if c <= 0x7f then 1 else if c <= 0x7ff then 2 else if c <= 0xffff then 3
    else if c <= 0x1f_ffff then 4 else if c <= 0x3ff_ffff then 5 else 6
  }

  /** A byte with its `n` high bits set. */
  function TopBits(n: nat): (b: Byte)
    requires 1 <= n <= 7
    ensures b >= 0x80
  {
    match n
    case 1 => 0x80 case 2 => 0xc0 case 3 => 0xe0 case 4 => 0xf0 case 5 => 0xf8 case 6 => 0xfc case 7 => 0xfe
  }

  /** How much of the first byte of an `n`-byte form is left for the character, as a power of two. */
  function Room(n: nat): (r: nat)
    requires 2 <= n <= 6
    ensures r == 0x100 - TopBits(n + 1)
  {
    match n
    case 2 => 0x20 case 3 => 0x10 case 4 => 0x8 case 5 => 0x4 case 6 => 0x2
  }

  function Shifted(c: nat, k: nat): (h: nat)
    ensures h <= c
  {
    if k == 0 then c else Shifted(c / 64, k - 1)
  }

  predicate Follows(b: Byte) {
    b / 64 == 2
  }

  /** The last `k` bytes of the form of `c`, six bits each. */
  function Tail(c: nat, k: nat): (t: seq<Byte>)
    ensures |t| == k && forall b :: b in t ==> Follows(b)
  {
    if k == 0 then [] else Tail(c / 64, k - 1) + [0x80 + c % 64]
  }

  /** The first byte leaves room for what the last ones do not hold. */
  lemma HeadFits(c: Word)
    ensures CBytes(c) == 1 ==> c < 0x80
    ensures CBytes(c) > 1 && c < 0x8000_0000 ==> Shifted(c, CBytes(c) - 1) < Room(CBytes(c))
    ensures CBytes(c) > 1 ==> Shifted(c, CBytes(c) - 1) <= 0xff - TopBits(CBytes(c))
  {
    ShiftedFive(c);
  }

  lemma ShiftedFive(c: nat)
    ensures Shifted(c, 1) == c / 64 && Shifted(c, 2) == c / 0x1000 && Shifted(c, 3) == c / 0x4_0000
    ensures Shifted(c, 4) == c / 0x100_0000 && Shifted(c, 5) == c / 0x4000_0000
  {
    assert Shifted(c, 1) == Shifted(c / 64, 0);
    assert Shifted(c, 2) == Shifted(c / 64, 1) == c / 64 / 64;
    assert Shifted(c, 3) == Shifted(c / 64, 2) == Shifted(c / 64 / 64, 1) == c / 64 / 64 / 64;
    assert Shifted(c, 4) == Shifted(c / 64, 3) == Shifted(c / 64 / 64, 2) == c / 64 / 64 / 64 / 64;
    assert Shifted(c, 5) == Shifted(c / 64, 4) == Shifted(c / 64 / 64, 3) == c / 64 / 64 / 64 / 64 / 64;
  }

  function Encode(c: Word): (s: seq<Byte>)
    ensures |s| == CBytes(c)
  {
    HeadFits(c);
    var n := CBytes(c);
    if n == 1 then [c] else [TopBits(n) + Shifted(c, n - 1)] + Tail(c, n - 1)
  }

  /** The length that a first byte of 0x80 or more announces, or 7. */
  function Announced(b: Byte): (n: nat)
    ensures 2 <= n <= 7
    ensures n <= 6 ==> b >= TopBits(n) && b - TopBits(n) < Room(n)
  {
    if b / 32 == 6 then 2 else if b / 16 == 14 then 3 else if b / 8 == 30 then 4
    else if b / 4 == 62 then 5 else if b / 2 == 126 then 6 else 7
  }

  function Fold(h: nat, t: seq<Byte>): (c: nat) {
    if t == [] then h else Fold(h, t[..|t| - 1]) * 64 + t[|t| - 1] % 64
  }

  predicate AllFollow(t: seq<Byte>) {
    forall b :: b in t ==> Follows(b)
  }

  /** The character at the front of some bytes and the bytes it takes. */
  function Decode(s: seq<Byte>): (r: Option<(Char, nat)>)
    ensures r.Some? ==> 0 < r.value.1 <= |s|
  {
    if s == [] then None
    else if s[0] < 0x80 then Some((s[0], 1))
    else
      var n := Announced(s[0]);
      if |s| < n || n > 6 || !AllFollow(s[1..n]) then None
      else
        var c := Fold(s[0] - TopBits(n), s[1..n]);
        FoldFits(s[0] - TopBits(n), n, s[1..n]);
        if n != CBytes(c) then None else Some((c, n))
  }

  lemma FoldFits(h: nat, n: nat, t: seq<Byte>)
    requires 2 <= n <= 6 && h < Room(n) && |t| == n - 1
    ensures Fold(h, t) < 0x8000_0000
  {
    ShiftedFive(Fold(h, t));
    ShiftedOfFold(h, t);
  }

  // ----- the codec is a bijection -----

  lemma {:induction false} ShiftedOfFold(h: nat, t: seq<Byte>)
    ensures Shifted(Fold(h, t), |t|) == h
  {
    if t != [] {
      var before, b := Fold(h, t[..|t| - 1]), t[|t| - 1] % 64;
      assert (before * 64 + b) / 64 == before;
      ShiftedOfFold(h, t[..|t| - 1]);
    }
  }

  lemma {:induction false} TailOfFold(h: nat, t: seq<Byte>)
    requires AllFollow(t)
    ensures Tail(Fold(h, t), |t|) == t
  {
    if t != [] {
      var front, last := t[..|t| - 1], t[|t| - 1];
      var before, b := Fold(h, front), last % 64;
      assert (before * 64 + b) / 64 == before && (before * 64 + b) % 64 == b;
      TailOfFold(h, front);
      assert Follows(last) && last == 0x80 + b;
      assert t == front + [last];
    }
  }

  lemma {:induction false} FoldOfTail(c: nat, k: nat)
    ensures Fold(Shifted(c, k), Tail(c, k)) == c
  {
    if k > 0 {
      FoldOfTail(c / 64, k - 1);
      var t := Tail(c, k);
      assert t[..|t| - 1] == Tail(c / 64, k - 1) && t[|t| - 1] == 0x80 + c % 64;
    }
  }

  lemma AnnouncedOf(n: nat, h: nat)
    requires 2 <= n <= 6 && h < Room(n)
    ensures Announced(TopBits(n) + h) == n
  {
  }

  /** Reading what was written gives the character and its length, whatever follows. */
  lemma ReadsWhatIsWritten(c: Char, rest: seq<Byte>)
    ensures Decode(Encode(c) + rest) == Some((c, CBytes(c)))
  {
    hide CBytes, TopBits, Room, Announced, Fold, Tail, Shifted;
    var n, s := CBytes(c), Encode(c) + rest;
    HeadFits(c);
    if n > 1 {
      var h, t := Shifted(c, n - 1), Tail(c, n - 1);
      AnnouncedOf(n, h);
      FoldOfTail(c, n - 1);
      assert s[0] == TopBits(n) + h && s[1..n] == t;
    }
  }

  /** A character of more than 31 bits is written as six bytes that cannot be read. */
  lemma ReadsBackIff(c: Word)
    ensures Decode(Encode(c)) == Some((c, CBytes(c))) <==> c < 0x8000_0000
  {
    if c < 0x8000_0000 {
      ReadsWhatIsWritten(c, []);
      assert Encode(c) + [] == Encode(c);
    } else {
      ShiftedFive(c);
      assert CBytes(c) == 6 && Encode(c)[0] >= 0xfe;
    }
  }

  /** Writing what was read gives exactly the bytes read. */
  lemma WritesWhatIsRead(s: seq<Byte>)
    requires Decode(s).Some?
    ensures var (c, n) := Decode(s).value; Encode(c) == s[..n]
  {
    hide TopBits, Room, Announced, Fold, Tail, Shifted;
    var (c, n) := Decode(s).value;
    if s[0] < 0x80 {
      assert s[..1] == [s[0]];
    } else {
      hide CBytes;
      var h, t := s[0] - TopBits(n), s[1..n];
      TailOfFold(h, t);
      ShiftedOfFold(h, t);
      assert s[..n] == [s[0]] + t;
    }
  }

  // ----- the forms of section 2 of RFC 2279 -----

  /** A byte that carries six bits of a character, from the one worth `unit` on. */
  function Next(c: Word, unit: nat): (b: int)
    requires unit > 0
  {
    0x80 + c / unit % 0x40
  }

  /** The bytes of a character, row by row of the table. */
  function Form(c: Word): seq<int> {
    if c <= 0x7f then [c]
    else if c <= 0x7ff then [0xc0 + c / 0x40, Next(c, 1)]
    else if c <= 0xffff then [0xe0 + c / 0x1000, Next(c, 0x40), Next(c, 1)]
    else if c <= 0x1f_ffff then [0xf0 + c / 0x4_0000, Next(c, 0x1000), Next(c, 0x40), Next(c, 1)]
    else if c <= 0x3ff_ffff then
      [0xf8 + c / 0x100_0000, Next(c, 0x4_0000), Next(c, 0x1000), Next(c, 0x40), Next(c, 1)]
    else
      [0xfc + c / 0x4000_0000, Next(c, 0x100_0000), Next(c, 0x4_0000), Next(c, 0x1000), Next(c, 0x40), Next(c, 1)]
  }

  lemma {:induction false} TailAt(c: Word, k: nat, i: nat)
    requires i < k
    ensures Tail(c, k)[k - 1 - i] == 0x80 + Shifted(c, i) % 64
  {
    if i > 0 {
      TailAt(c / 64, k - 1, i - 1);
    }
  }

  lemma TailForm(c: Word, k: nat)
    ensures k >= 1 ==> Tail(c, k)[k - 1] == Next(c, 1)
    ensures k >= 2 ==> Tail(c, k)[k - 2] == Next(c, 0x40)
    ensures k >= 3 ==> Tail(c, k)[k - 3] == Next(c, 0x1000)
    ensures k >= 4 ==> Tail(c, k)[k - 4] == Next(c, 0x4_0000)
    ensures k >= 5 ==> Tail(c, k)[k - 5] == Next(c, 0x100_0000)
  {
    hide Tail;
    ShiftedFive(c);
    if k >= 1 { TailAt(c, k, 0); }
    if k >= 2 { TailAt(c, k, 1); }
    if k >= 3 { TailAt(c, k, 2); }
    if k >= 4 { TailAt(c, k, 3); }
    if k >= 5 { TailAt(c, k, 4); }
  }

  /** A character is written in the form that the table gives. */
  lemma WritesForm(c: Word)
    ensures Encode(c) == Form(c)
  {
    hide Tail, Shifted, Next;
    HeadFits(c);
    ShiftedFive(c);
    TailForm(c, CBytes(c) - 1);
  }

  /** A character is read exactly where its form stands. */
  lemma ReadsForm(s: seq<Byte>, c: Char, n: nat)
    ensures Decode(s) == Some((c, n)) <==> n == |Form(c)| && n <= |s| && s[..n] == Form(c)
  {
    hide Encode, Decode, Form;
    WritesForm(c);
    if Decode(s) == Some((c, n)) {
      WritesWhatIsRead(s);
    }
    if n == |Form(c)| && n <= |s| && s[..n] == Form(c) {
      ReadsWhatIsWritten(c, s[n..]);
      assert s == s[..n] + s[n..];
    }
  }

  // ----- texts -----

  function EncodeAll(cs: seq<Word>): seq<Byte> {
    if cs == [] then [] else Encode(cs[0]) + EncodeAll(cs[1..])
  }

  /** The characters of a text, if it is valid to its end. */
  function DecodeAll(s: seq<Byte>): (r: Option<seq<Char>>)
    decreases |s|
  {
    if s == [] then Some([])
    else
      var first := Decode(s);
      if first.None? then None
      else
        var rest := DecodeAll(s[first.value.1..]);
        if rest.None? then None else Some([first.value.0] + rest.value)
  }

  /** The valid texts are exactly the written ones. */
  lemma {:induction false} ValidIsWritten(s: seq<Byte>, cs: seq<Char>)
    ensures DecodeAll(s) == Some(cs) <==> s == EncodeAll(cs)
    decreases |s| + |cs|
  {
    hide Encode, Decode, CBytes;
    if s == [] {
      if cs != [] { assert EncodeAll(cs) != []; }
    } else if cs == [] {
    } else {
      if Decode(s).Some? {
        WritesWhatIsRead(s);
        var (c, n) := Decode(s).value;
        ValidIsWritten(s[n..], cs[1..]);
        if DecodeAll(s) == Some(cs) {
          assert cs[0] == c && DecodeAll(s[n..]) == Some(cs[1..]);
          assert s == s[..n] + s[n..];
        }
      }
      if s == EncodeAll(cs) {
        ReadsWhatIsWritten(cs[0], EncodeAll(cs[1..]));
        assert s[CBytes(cs[0])..] == EncodeAll(cs[1..]);
        assert [cs[0]] + cs[1..] == cs;
      }
    }
  }

  lemma {:induction false} EncodeParts(a: seq<Word>, b: seq<Word>)
    ensures EncodeAll(a + b) == EncodeAll(a) + EncodeAll(b)
  {
    hide Encode;
    if a == [] {
      assert a + b == b;
    } else {
      assert (a + b)[1..] == a[1..] + b && (a + b)[0] == a[0];
      EncodeHead(a);
      EncodeHead(a + b);
      hide EncodeAll;
      EncodeParts(a[1..], b);
      Regroup(Encode(a[0]), EncodeAll(a[1..]), EncodeAll(b));
    }
  }

  lemma EncodeHead(cs: seq<Word>)
    requires cs != []
    ensures EncodeAll(cs) == Encode(cs[0]) + EncodeAll(cs[1..])
  {
  }

  // ----- the C functions -----

  /** Writes all but the first of `n` bytes, from the last on, and returns what is left of the character. */
  method WriteTail(ch: Word, s: array<Byte>, at: nat, n: nat) returns (c: Word)
    requires 1 <= n && at + n <= s.Length
    modifies s
    ensures c == Shifted(ch, n - 1) && s[at + 1..at + n] == Tail(ch, n - 1)
    ensures forall j :: 0 <= j < s.Length && !(at < j < at + n) ==> s[j] == old(s[j])
  {
    hide Tail, Shifted;
    ghost var whole := Tail(ch, n - 1);
    c := ch;
    ShiftedNone(ch);
    var i := n - 1;
    while i > 0
      invariant 0 <= i < n && c == Shifted(ch, n - 1 - i) && Tail(c, i) == whole[..i]
      invariant s[at + i + 1..at + n] == whole[i..]
      invariant forall j :: 0 <= j < s.Length && !(at < j < at + n) ==> s[j] == old(s[j])
    {
      s[at + i] := 0x80 + c % 64;
      ShiftedNext(ch, n - 1 - i);
      TailEnds(c, i);
      assert whole[i - 1] == whole[..i][i - 1] && whole[..i - 1] == whole[..i][..i - 1];
      assert s[at + i..at + n] == [s[at + i]] + s[at + i + 1..at + n] && whole[i - 1..] == [whole[i - 1]] + whole[i..];
      c := c / 64;
      i := i - 1;
    }
  }

  /** Writes a character at `at`; nothing when there is no space. */
  method WriteC(ch: Word, s: array<Byte>, at: nat, len: nat) returns (n: nat)
    requires at + len <= s.Length
    modifies s
    ensures n == if len < CBytes(ch) then 0 else CBytes(ch)
    ensures n > 0 ==> s[at..at + n] == Encode(ch)
    ensures forall j :: 0 <= j < s.Length && !(at <= j < at + n) ==> s[j] == old(s[j])
  {
    n := CBytes(ch);
    if len < n { return 0; }
    HeadFits(ch);
    hide Tail, CBytes, TopBits, Shifted;
    ShiftedNone(ch);
    var c := WriteTail(ch, s, at, n);
    s[at] := (if n > 1 then TopBits(n) else 0) + c;
    assert s[at + 1..at + n] == Tail(ch, n - 1);
    assert s[at..at + n] == [s[at]] + s[at + 1..at + n];
  }

  lemma ShiftedNone(c: nat)
    ensures Shifted(c, 0) == c
  {
  }

  lemma TailEnds(c: nat, k: nat)
    requires k > 0
    ensures Tail(c, k)[..k - 1] == Tail(c / 64, k - 1) && Tail(c, k)[k - 1] == 0x80 + c % 64
  {
  }

  lemma ShiftedNext(c: nat, k: nat)
    ensures Shifted(c, k + 1) == Shifted(c, k) / 64
  {
    if k > 0 { ShiftedNext(c / 64, k - 1); }
  }

  /** Reads the character at `at` within `len` bytes. */
  method ReadC(s: seq<Byte>, at: nat, len: nat) returns (r: Option<(Char, nat)>)
    requires at + len <= |s|
    ensures r == Decode(s[at..at + len])
  {
    ghost var view := s[at..at + len];
    if len == 0 { return None; }
    if s[at] < 0x80 { return Some((s[at], 1)); }
    var n := 2;
    while n < 7 && s[at] / Room(n) != TopBits(n) / Room(n)
      invariant 2 <= n <= 7
      invariant forall m :: 2 <= m < n ==> s[at] / Room(m) != TopBits(m) / Room(m)
      decreases 7 - n
    {
      n := n + 1;
    }
    AnnouncedByScan(s[at], n);
    if len < n || n > 6 { return None; }
    var c, i := s[at] % Room(n), 1;
    while i < n
      invariant 1 <= i <= n && AllFollow(view[1..i]) && c == Fold(s[at] - TopBits(n), view[1..i])
    {
      assert view[1..i + 1] == view[1..i] + [view[i]];
      if s[at + i] / 64 != 2 {
        assert view[1..n][i - 1] in view[1..n] && !Follows(view[1..n][i - 1]);
        return None;
      }
      c := c * 64 + s[at + i] % 64;
      i := i + 1;
    }
    FoldFits(s[at] - TopBits(n), n, view[1..n]);
    if n != CBytes(c) { return None; }
    r := Some((c, n));
  }

  lemma AnnouncedByScan(b: Byte, n: nat)
    requires b >= 0x80 && 2 <= n <= 7 && (n < 7 ==> b / Room(n) == TopBits(n) / Room(n))
    requires forall m :: 2 <= m < n ==> b / Room(m) != TopBits(m) / Room(m)
    ensures n == Announced(b) && (n < 7 ==> b % Room(n) == b - TopBits(n))
  {
  }

  /** The characters up to the end or the first malformed byte. */
  function Front(s: seq<Byte>): (cs: seq<Char>)
    ensures |cs| <= |s|
    decreases |s|
  {
    if s == [] || Decode(s).None? then []
    else [Decode(s).value.0] + Front(s[Decode(s).value.1..])
  }

  /** The front is written in the first bytes, and a text is valid if that is all. */
  lemma {:induction false} FrontIsWritten(s: seq<Byte>)
    ensures EncodeAll(Front(s)) <= s
    ensures DecodeAll(s) == if |EncodeAll(Front(s))| == |s| then Some(Front(s)) else None
    decreases |s|
  {
    hide Encode, Decode;
    if s != [] && Decode(s).Some? {
      var n := Decode(s).value.1;
      WritesWhatIsRead(s);
      FrontIsWritten(s[n..]);
      assert s == s[..n] + s[n..];
    }
  }

  lemma FrontFits(s: seq<Byte>, k: nat)
    requires k <= |Front(s)|
    ensures |EncodeAll(Front(s)[..k])| <= |s|
  {
    hide EncodeAll, Front;
    FrontIsWritten(s);
    EncodeParts(Front(s)[..k], Front(s)[k..]);
    assert Front(s)[..k] + Front(s)[k..] == Front(s);
  }

  /** Where the first `n` characters of any bytes end: behind them if there are so many, at the
      end of a shorter valid text, and nowhere if a malformed byte comes first. */
  function Skip(s: seq<Byte>, n: int): (r: Option<nat>)
    ensures r.Some? ==> r.value <= |s|
  {
    var cs := Front(s);
    FrontFits(s, Upto(n, |cs|));
    if n <= |cs| then Some(|EncodeAll(cs[..Upto(n, |cs|)])|)
    else if |EncodeAll(cs)| == |s| then Some(|s|)
    else None
  }

  /** Skips characters, as many as are asked for or all there are. */
  method NthChar(s: seq<Byte>, at: nat, n: int, len: nat) returns (r: Option<nat>)
    requires at + len <= |s|
    ensures r == Skip(s[at..at + len], n)
  {
    hide Decode, Encode, EncodeAll, Front;
    ghost var text := s[at..at + len];
    ghost var cs := Front(text);
    var used, i := 0, 0;
    assert text[0..] == text && cs[0..] == cs && cs[..0] == [];
    NoChars();
    while used < len && i < n
      invariant used <= len && 0 <= i <= |cs| && (n >= 0 ==> i <= n) && (n < 0 ==> i == 0)
      invariant Front(text[used..]) == cs[i..] && used == |EncodeAll(cs[..i])|
      decreases len - used
    {
      assert s[at + used..at + len] == text[used..];
      var c := ReadC(s, at + used, len - used);
      NextChar(text, used, cs, i);
      if c.None? { return None; }
      used := used + c.value.1;
      i := i + 1;
    }
    r := Some(used);
    if used == len {
      assert text[used..] == [];
      NothingLeft(cs[i..]);
      assert cs[..i] == cs;
    }
  }

  lemma NoChars()
    ensures EncodeAll([]) == []
  {
  }

  lemma NothingLeft(cs: seq<Char>)
    requires Front([]) == cs
    ensures cs == []
  {
  }

  /** One character further in the front, or the end of the front at a malformed byte. */
  lemma NextChar(text: seq<Byte>, used: nat, cs: seq<Char>, i: nat)
    requires used < |text| && i <= |cs| && Front(text[used..]) == cs[i..]
    ensures Decode(text[used..]).None? ==> i == |cs| && cs[..i] == cs
    ensures Decode(text[used..]).Some? ==>
      var n := Decode(text[used..]).value.1;
      i < |cs| && Front(text[used + n..]) == cs[i + 1..] && |EncodeAll(cs[..i + 1])| == |EncodeAll(cs[..i])| + n
  {
    hide Decode, Encode;
    if Decode(text[used..]).Some? {
      var n := Decode(text[used..]).value.1;
      assert text[used..][n..] == text[used + n..];
      assert cs[i] == cs[i..][0] && cs[i..][1..] == cs[i + 1..];
      assert cs[..i + 1] == cs[..i] + [cs[i]];
      EncodeParts(cs[..i], [cs[i]]);
      EncodeOne(cs[i]);
      DecodedLength(text[used..]);
    }
  }

  function Upto(n: int, size: nat): (k: nat)
    ensures k <= size
  {
    if n < 0 then 0 else if n > size then size else n
  }

  lemma EncodeOne(c: Char)
    ensures EncodeAll([c]) == Encode(c)
  {
    assert [c][1..] == [] && Encode(c) + [] == Encode(c);
  }

  lemma DecodedLength(s: seq<Byte>)
    requires Decode(s).Some?
    ensures Decode(s).value.1 == |Encode(Decode(s).value.0)|
  {
    WritesWhatIsRead(s);
  }

  /** The number of characters of a valid text, and an error for any other. */
  method Size(s: seq<Byte>) returns (sz: Option<nat>)
    ensures sz == if DecodeAll(s).Some? then Some(|DecodeAll(s).value|) else None
  {
    hide Decode;
    var n, at := 0, 0;
    assert s[0..] == s;
    while at < |s|
      invariant at <= |s|
      invariant DecodeAll(s).Some? <==> DecodeAll(s[at..]).Some?
      invariant DecodeAll(s).Some? ==> |DecodeAll(s).value| == n + |DecodeAll(s[at..]).value|
    {
      assert s[at..at + (|s| - at)] == s[at..];
      var c := ReadC(s, at, |s| - at);
      if c.None? { return None; }
      assert s[at..][c.value.1..] == s[at + c.value.1..];
      n := n + 1;
      at := at + c.value.1;
    }
    sz := Some(n);
  }

  /** The character at an index: in any bytes, the one that many characters into the front,
      and an error behind it. */
  method StrC(s: seq<Byte>, idx: int) returns (c: Option<Char>)
    ensures var k := if idx < 0 then 0 else idx;
      c == if k < |Front(s)| then Some(Front(s)[k]) else None
  {
    hide EncodeAll, Encode, Decode, Front, Skip;
    assert s[0..0 + |s|] == s;
    var at := NthChar(s, 0, idx, |s|);
    CharAt(s, idx);
    if at.None? { return None; }
    var r := ReadC(s, at.value, |s| - at.value);
    c := if r.Some? then Some(r.value.0) else None;
  }

  /** Behind the skipped characters comes the next one, or none that can be read. */
  lemma CharAt(s: seq<Byte>, idx: int)
    ensures var cs := Front(s); var k := if idx < 0 then 0 else idx;
      && (k < |cs| ==> Skip(s, idx).Some?)
      && (Skip(s, idx).Some? ==>
            var r := Decode(s[Skip(s, idx).value..|s|]);
            if k < |cs| then r.Some? && r.value.0 == cs[k] else r == None)
  {
    hide EncodeAll, Encode, Decode;
    var cs := Front(s);
    if idx <= |cs| {
      var k := Upto(idx, |cs|);
      FrontBehind(s, k);
      FrontHead(s[|EncodeAll(cs[..k])|..|s|]);
    } else {
      DecodeNothing();
    }
  }

  lemma FrontHead(s: seq<Byte>)
    ensures Front(s) == [] ==> Decode(s) == None
    ensures Front(s) != [] ==> Decode(s).Some? && Decode(s).value.0 == Front(s)[0]
  {
    hide Decode;
    if s == [] { DecodeNothing(); }
  }

  lemma DecodeNothing()
    ensures Decode([]) == None
  {
  }

  /** The front of the bytes behind the first characters is the rest of the front. */
  lemma {:induction false} FrontBehind(s: seq<Byte>, k: nat)
    requires k <= |Front(s)|
    ensures |EncodeAll(Front(s)[..k])| <= |s| && Front(s[|EncodeAll(Front(s)[..k])|..|s|]) == Front(s)[k..]
    decreases |s|
  {
    hide Encode, Decode;
    var cs := Front(s);
    if k == 0 {
      assert cs[..0] == [] && cs[0..] == cs && s[0..|s|] == s;
    } else {
      var (c, n) := Decode(s).value;
      FrontBehind(s[n..], k - 1);
      WritesWhatIsRead(s);
      assert cs[1..] == Front(s[n..]) && cs[..k] == [c] + cs[1..][..k - 1] && cs[1..][k - 1..] == cs[k..];
      EncodeHead(cs[..k]);
      assert cs[..k][1..] == cs[1..][..k - 1];
      var m := |EncodeAll(cs[1..][..k - 1])|;
      assert s[n..][m..|s[n..]|] == s[n + m..|s|];
    }
  }

  /** The bytes behind the first characters of a valid text are the text of the others. */
  lemma SuffixDecodes(s: seq<Byte>, cs: seq<Char>, k: nat)
    requires DecodeAll(s) == Some(cs) && k <= |cs|
    ensures |EncodeAll(cs[..k])| <= |s| && s[..|EncodeAll(cs[..k])|] == EncodeAll(cs[..k])
    ensures s[|EncodeAll(cs[..k])|..] == EncodeAll(cs[k..]) && DecodeAll(s[|EncodeAll(cs[..k])|..|s|]) == Some(cs[k..])
  {
    hide DecodeAll, EncodeAll;
    ValidIsWritten(s, cs);
    assert cs == cs[..k] + cs[k..];
    EncodeParts(cs[..k], cs[k..]);
    ValidIsWritten(EncodeAll(cs[k..]), cs[k..]);
    assert s[|EncodeAll(cs[..k])|..|s|] == EncodeAll(cs[k..]);
  }

  /** A substring by character index, of any bytes; the third argument counts characters from
      the first. Of a valid text the characters asked for, of other bytes what lies between the
      two places skipped to, if no malformed byte comes before them. */
  method Substr(s: seq<Byte>, start: int, end: Option<int>) returns (r: Option<seq<Byte>>)
    ensures r == match Skip(s, start)
      case None => None
      case Some(from) =>
        match end
        case None => Some(s[from..])
        case Some(n) => match Skip(s[from..], n) case None => None case Some(m) => Some(s[from..from + m])
    ensures DecodeAll(s).Some? ==>
      var cs := DecodeAll(s).value;
      var rest := cs[Upto(start, |cs|)..];
      r == Some(EncodeAll(if end.Some? then rest[..Upto(end.value, |rest|)] else rest))
  {
    hide DecodeAll, EncodeAll, Skip, Front, Upto;
    assert s[0..0 + |s|] == s;
    if DecodeAll(s).Some? { SkipsInValid(s, start); }
    var from := NthChar(s, 0, start, |s|);
    if from.None? { return None; }
    var at, len := from.value, |s| - from.value;
    assert s[at..at + len] == s[at..];
    if end.Some? {
      if DecodeAll(s).Some? { SkipsInValid(s[at..], end.value); }
      var to := NthChar(s, at, end.value, len);
      if to.None? { return None; }
      len := to.value;
      assert s[at..][..len] == s[at..at + len];
    }
    r := Some(s[at..at + len]);
  }

  /** Skipping in a valid text ends behind as many characters as there are, up to the number. */
  lemma SkipsInValid(s: seq<Byte>, n: int)
    requires DecodeAll(s).Some?
    ensures Skip(s, n).Some?
    ensures var cs, at := DecodeAll(s).value, Skip(s, n).value;
      var k := Upto(n, |cs|);
      s[..at] == EncodeAll(cs[..k]) && s[at..] == EncodeAll(cs[k..]) && DecodeAll(s[at..]) == Some(cs[k..])
  {
    hide DecodeAll, EncodeAll, Front;
    var cs := DecodeAll(s).value;
    var k := Upto(n, |cs|);
    FrontIsWritten(s);
    SuffixDecodes(s, cs, k);
    assert n > |cs| ==> cs[..k] == cs;
    assert s[|EncodeAll(cs[..k])|..|s|] == s[|EncodeAll(cs[..k])|..];
  }

  /** The text with every malformed byte taken for the character `unk`. */
  function Repair(s: seq<Byte>, unk: Word): (cs: seq<Word>)
    ensures |cs| <= |s|
    decreases |s|
  {
    if s == [] then []
    else
      var r := Decode(s);
      if r.Some? then [r.value.0] + Repair(s[r.value.1..], unk) else [unk] + Repair(s[1..], unk)
  }

  /** Repairing leaves a valid text alone. */
  lemma {:induction false} RepairOfValid(s: seq<Byte>, unk: Word)
    requires DecodeAll(s).Some?
    ensures Repair(s, unk) == DecodeAll(s).value && EncodeAll(Repair(s, unk)) == s
    decreases |s|
  {
    if s != [] {
      RepairOfValid(s[Decode(s).value.1..], unk);
    }
    ValidIsWritten(s, DecodeAll(s).value);
  }

  /** Bytes that are not valid are repaired with `unk` at some place. */
  lemma {:induction false} RepairOfOther(s: seq<Byte>, unk: Word)
    ensures DecodeAll(s).None? ==> unk in Repair(s, unk)
    ensures forall c :: c in Repair(s, unk) ==> c == unk || c < 0x8000_0000
    decreases |s|
  {
    hide Decode;
    if s != [] {
      var r := Decode(s);
      RepairOfOther(if r.Some? then s[r.value.1..] else s[1..], unk);
    }
  }

  /** Written characters are a valid text just when each can be read back. */
  lemma {:induction false} WrittenIsValidIff(cs: seq<Word>)
    ensures DecodeAll(EncodeAll(cs)).Some? <==> forall c :: c in cs ==> c < 0x8000_0000
    ensures DecodeAll(EncodeAll(cs)).Some? ==> DecodeAll(EncodeAll(cs)) == Some(cs)
  {
    hide Encode, Decode, CBytes;
    if cs != [] {
      var s, rest := EncodeAll(cs), EncodeAll(cs[1..]);
      EncodeHead(cs);
      WrittenIsValidIff(cs[1..]);
      if cs[0] < 0x8000_0000 {
        ReadsWhatIsWritten(cs[0], rest);
        assert s[CBytes(cs[0])..] == rest;
        assert Decode(s) == Some((cs[0], CBytes(cs[0])));
        assert [cs[0]] + cs[1..] == cs;
        assert forall c :: c in cs <==> c == cs[0] || c in cs[1..];
      } else {
        TooLarge(cs[0], rest);
        assert cs[0] in cs;
      }
    }
  }

  /** What needs more than 31 bits starts with a byte that announces nothing. */
  lemma TooLarge(c: Word, rest: seq<Byte>)
    requires c >= 0x8000_0000
    ensures Decode(Encode(c) + rest) == None
  {
    ShiftedFive(c);
    assert CBytes(c) == 6 && (Encode(c) + rest)[0] >= 0xfe;
  }

  lemma RepairStep(s: seq<Byte>, unk: Word)
    requires s != []
    ensures var (c, n) := if Decode(s).Some? then (Decode(s).value.0 as Word, Decode(s).value.1) else (unk, 1);
      EncodeAll(Repair(s, unk)) == Encode(c) + EncodeAll(Repair(s[n..], unk))
  {
    hide Decode, Encode;
    var (c, n) := if Decode(s).Some? then (Decode(s).value.0 as Word, Decode(s).value.1) else (unk, 1);
    assert ([c] + Repair(s[n..], unk))[1..] == Repair(s[n..], unk);
  }

  /** The repaired text of any bytes, within six bytes for each. It is valid just when the bytes
      were or the replacement is a character that can be read back. */
  method Validate(s: seq<Byte>, unk: Word) returns (text: seq<Byte>)
    ensures text == EncodeAll(Repair(s, unk)) && |text| <= 6 * |s|
    ensures DecodeAll(text).Some? <==> unk < 0x8000_0000 || DecodeAll(s).Some?
    ensures DecodeAll(text).Some? ==> DecodeAll(text) == Some(Repair(s, unk))
    ensures DecodeAll(s).Some? ==> text == s
  {
    hide Decode, Encode, CBytes, EncodeAll, DecodeAll, Repair;
    var buf := new Byte[6 * |s|](_ => 0);
    var at: nat, out: nat := 0, 0;
    assert s[0..] == s && buf[..0] == [];
    while at < |s|
      invariant at <= |s| && out <= 6 * at && out <= buf.Length
      invariant EncodeAll(Repair(s, unk)) == buf[..out] + EncodeAll(Repair(s[at..], unk))
    {
      assert s[at..at + (|s| - at)] == s[at..];
      RepairStep(s[at..], unk);
      var r := ReadC(s, at, |s| - at);
      var c: Word, n := unk, 1;
      if r.Some? { c, n := r.value.0, r.value.1; }
      assert s[at..][n..] == s[at + n..];
      ghost var before := buf[..out];
      var w := WriteC(c, buf, out, 6 * |s| - out);
      assert buf[..out] == before && buf[..out + w] == before + Encode(c);
      Regroup(before, Encode(c), EncodeAll(Repair(s[at + n..], unk)));
      out := out + w;
      at := at + n;
    }
    text := buf[..out];
    assert s[at..] == [];
    RepairOfNothing(unk);
    WrittenIsValidIff(Repair(s, unk));
    RepairOfOther(s, unk);
    if DecodeAll(s).Some? { RepairOfValid(s, unk); }
  }

  lemma RepairOfNothing(unk: Word)
    ensures EncodeAll(Repair([], unk)) == []
  {
  }
}
