/** What the operators give for each kind of operand. */
module Operators {
  import opened Basics
  import opened Values

  /** The number a value stands for in arithmetic. */
  function NumberOf(host: Host, v: Value): Option<real> {
    match v
    case Num(n) => Some(n)
    case Str(s, _) => host.toNum(s)
    case _ => None
  }

  // ----- arithmetic -----

  lemma OnNumbers(host: Host, h: Heap, x: real, y: real)
    ensures ApplyBinary(host, Plus, h, Num(x), Num(y)) == Ok((Num(x + y), h))
    ensures ApplyBinary(host, Minus, h, Num(x), Num(y)) == Ok((Num(x - y), h))
    ensures ApplyBinary(host, Mul, h, Num(x), Num(y)) == Ok((Num(x * y), h))
    ensures y != 0.0 ==> ApplyBinary(host, Div, h, Num(x), Num(y)) == Ok((Num(x / y), h))
    ensures y == 0.0 ==> ApplyBinary(host, Div, h, Num(x), Num(y)) == Ok((Num(host.divZero(x)), h))
    ensures ApplyBinary(host, Lt, h, Num(x), Num(y)) == Ok((Num(if x < y then 1.0 else 0.0), h))
    ensures ApplyBinary(host, Lte, h, Num(x), Num(y)) == Ok((Num(if y < x then 0.0 else 1.0), h))
    ensures ApplyBinary(host, Gt, h, Num(x), Num(y)) == Ok((Num(if y < x then 1.0 else 0.0), h))
    ensures ApplyBinary(host, Gte, h, Num(x), Num(y)) == Ok((Num(if x < y then 0.0 else 1.0), h))
    ensures ApplyUnary(host, Neg, Num(x)) == Ok(Num(0.0 - x)) && ApplyUnary(host, Negate, Num(x)) == Ok(Num(0.0 - x))
  {
    assert Numify(host, Num(x)) == Ok(x) && Numify(host, Num(y)) == Ok(y);
    assert Arith(host, Mul, x, y) == Num(x * y);
  }

  predicate IsArith(op: BinOp) {
    op == Plus || op == Minus || op == Mul || op == Div || op == Lt || op == Lte || op == Gt || op == Gte
  }

  /** A string that spells a number acts as this number; any other operand is an error. */
  lemma OnTexts(host: Host, op: BinOp, h: Heap, l: Value, r: Value)
    requires IsArith(op)
    ensures var (x, y) := (NumberOf(host, l), NumberOf(host, r));
      var o := ApplyBinary(host, op, h, l, r);
      && (o.Ok? <==> x.Some? && y.Some?)
      && (o.Ok? ==> o == ApplyBinary(host, op, h, Num(x.value), Num(y.value)) && o.value.0.Num? && o.value.1 == h)
  {
  }

  // ----- equality and truth -----

  /** Equal are a value and itself, strings of one text, and whatever stands for one number. */
  ghost predicate Same(host: Host, l: Value, r: Value) {
    l == r || (l.Str? && r.Str? && l.s == r.s) || (NumberOf(host, l).Some? && NumberOf(host, l) == NumberOf(host, r))
  }

  lemma EqualIff(host: Host, l: Value, r: Value)
    ensures Equal(host, l, r) <==> Same(host, l, r)
  {
    assert NumericEqual(host, l, r) <==> NumberOf(host, l).Some? && NumberOf(host, l) == NumberOf(host, r);
  }

  lemma OnEquality(host: Host, h: Heap, l: Value, r: Value)
    ensures ApplyBinary(host, Eq, h, l, r) == Ok((Num(if Same(host, l, r) then 1.0 else 0.0), h))
    ensures ApplyBinary(host, Neq, h, l, r) == Ok((Num(if Same(host, l, r) then 0.0 else 1.0), h))
  {
    hide Equal, Same;
    EqualIff(host, l, r);
  }

  /** It is an equivalence, numeric strings included. */
  lemma EqualIsEquivalence(host: Host, a: Value, b: Value, c: Value)
    ensures Equal(host, a, a)
    ensures Equal(host, a, b) == Equal(host, b, a)
    ensures Equal(host, a, b) && Equal(host, b, c) ==> Equal(host, a, c)
  {
    hide Equal;
    EqualIff(host, a, a);
    EqualIff(host, a, b);
    EqualIff(host, b, a);
    EqualIff(host, b, c);
    EqualIff(host, a, c);
  }

  /** False are nil, the end of an enumeration, the empty string, and zero, also when spelled; true are
      all other numbers and strings; a container or function is neither. */
  lemma TruthIff(host: Host, v: Value)
    ensures var falsehood := v.Nil? || v.End? || (v.Str? && v.s == "") || NumberOf(host, v) == Some(0.0);
      && (Boolify(host, v).Err? <==> v.Vec? || v.Hash? || v.Func? || v.Code?)
      && (Boolify(host, v).Ok? ==>
            && Boolify(host, v).value == !falsehood
            && ApplyUnary(host, Not, v) == Ok(Num(if falsehood then 1.0 else 0.0)))
      && (Boolify(host, v).Err? ==> ApplyUnary(host, Not, v).Err?)
  {
  }

  // ----- indexing -----

  /** The element that the number `d` picks of `size`: truncated toward zero, and from the back when that
      is below zero. */
  ghost predicate Picks(d: real, size: nat, i: nat) {
    i < size && ((i as real <= d < (i + 1) as real) || (i == 0 && -1.0 < d < 0.0)
                 || ((i as int - size - 1) as real < d <= (i as int - size) as real))
  }

  lemma PicksIff(host: Host, size: nat, key: Value, d: real)
    requires NumberOf(host, key) == Some(d)
    ensures CheckIndex(host, size, key).Ok? <==> -((size + 1) as real) < d < size as real && size > 0
    ensures CheckIndex(host, size, key).Ok? ==> Picks(d, size, CheckIndex(host, size, key).value)
  {
    var i := Truncate(d);
    assert Numify(host, key) == Ok(d);
    if d >= 0.0 {
      assert i as real <= d < (i + 1) as real;
    } else {
      assert (i - 1) as real < d <= i as real;
    }
  }

  lemma NoNumberNoIndex(host: Host, size: nat, key: Value)
    requires NumberOf(host, key).None?
    ensures CheckIndex(host, size, key).Err?
  {
  }

  /** One index is picked at most. */
  lemma PicksOne(d: real, size: nat, i: nat, j: nat)
    requires Picks(d, size, i) && Picks(d, size, j)
    ensures i == j
  {
    if d < 0.0 {
      assert i < size && j < size;
    }
  }

  /** Elements of a vector and characters of a string by number. */
  lemma ElementAt(host: Host, h: Heap, box: Value, key: Value, d: real, i: nat)
    requires NumberOf(host, key) == Some(d)
    ensures IsVec(h, box) && Picks(d, |h[box.addr].elems|, i) ==>
              ContainerGet(host, h, box, key) == Ok(h[box.addr].elems[i])
    ensures box.Str? && Picks(d, |box.s|, i) ==> ContainerGet(host, h, box, key) == Ok(Num((box.s[i] as int) as real))
  {
    if IsVec(h, box) {
      PickFound(host, |h[box.addr].elems|, key, d, i);
    }
    if box.Str? {
      PickFound(host, |box.s|, key, d, i);
    }
  }

  lemma PickFound(host: Host, size: nat, key: Value, d: real, i: nat)
    requires NumberOf(host, key) == Some(d)
    ensures Picks(d, size, i) ==> CheckIndex(host, size, key) == Ok(i)
  {
    PicksIff(host, size, key, d);
    if Picks(d, size, i) && CheckIndex(host, size, key).Ok? {
      PicksOne(d, size, i, CheckIndex(host, size, key).value);
    }
  }

  /** The key is a number, or spells one, that picks one of `size` elements. */
  ghost predicate InRange(host: Host, key: Value, size: nat) {
    NumberOf(host, key).Some? && size > 0 && -((size + 1) as real) < NumberOf(host, key).value < size as real
  }

  /** When a lookup fails. */
  lemma GetFailsIff(host: Host, h: Heap, box: Value, key: Value)
    ensures ContainerGet(host, h, box, key).Err?
            <==> || !(key.Num? || key.Str?) || !(IsHash(h, box) || IsVec(h, box) || box.Str?)
                 || (IsVec(h, box) && !InRange(host, key, |h[box.addr].elems|))
                 || (box.Str? && !InRange(host, key, |box.s|))
  {
    match NumberOf(host, key) {
      case Some(d) =>
        if IsVec(h, box) { PicksIff(host, |h[box.addr].elems|, key, d); }
        if box.Str? { PicksIff(host, |box.s|, key, d); }
      case None =>
    }
  }

  /** Nothing but one object differs. */
  ghost predicate OnlyAt(h: Heap, g: Heap, a: nat) {
    |g| == |h| && a < |h| && forall i :: 0 <= i < |h| && i != a ==> g[i] == h[i]
  }

  /** What was set is there, and nothing else changed: other keys, other elements, other objects. */
  lemma GetAfterSet(host: Host, h: Heap, box: Value, key: Value, v: Value)
    requires ContainerSet(host, h, box, key, v).Ok?
    ensures var g := ContainerSet(host, h, box, key, v).value;
      && (IsHash(h, box) || IsVec(h, box)) && OnlyAt(h, g, box.addr) && ContainerGet(host, g, box, key) == Ok(v)
      && (IsHash(h, box) ==> IsHash(g, box) && OtherKeysStay(h[box.addr].members, g[box.addr].members, key))
      && (IsVec(h, box) ==> IsVec(g, box) && |g[box.addr].elems| == |h[box.addr].elems|)
      && (IsVec(h, box) ==>
            forall i :: 0 <= i < |h[box.addr].elems| && CheckIndex(host, |h[box.addr].elems|, key) != Ok(i) ==>
                          g[box.addr].elems[i] == h[box.addr].elems[i])
  {
  }

  ghost predicate OtherKeysStay(m: Members, n: Members, key: Value) {
    forall k :: k != Key(key) ==> (k in n <==> k in m) && (k in m ==> n[k] == m[k])
  }

  /** A key of a hash that is not there is nil; a number and its spelling are different keys. */
  lemma MissingIsNil(host: Host, h: Heap, box: Value, key: Value)
    requires IsHash(h, box) && IsScalar(key) && (forall k :: k in h[box.addr].members ==> k != Key(key))
    ensures ContainerGet(host, h, box, key) == Ok(Nil)
  {
  }

  /** In a hash every string of a text is one key, and no other key is touched by it. */
  lemma KeysAreTexts(host: Host, h: Heap, box: Value, key: Value, v: Value, other: Value)
    requires IsHash(h, box) && IsScalar(key) && IsScalar(other)
    ensures ContainerSet(host, h, box, key, v).Ok?
    ensures var g := ContainerSet(host, h, box, key, v).value;
      ContainerGet(host, g, box, other)
      == if other == key || (other.Str? && key.Str? && other.s == key.s) then Ok(v)
         else ContainerGet(host, h, box, other)
  {
    GetAfterSet(host, h, box, key, v);
  }

  // ----- joining -----

  /** `~` joins vectors into a new one and texts into a new string; numbers are spelled first. */
  lemma Joins(host: Host, h: Heap, l: Value, r: Value)
    ensures IsVec(h, l) && IsVec(h, r) ==>
              var o := ApplyBinary(host, Cat, h, l, r);
              && o.Ok? && o.value.0.Vec? && o.value.0.addr == |h| && h < o.value.1 && |o.value.1| == |h| + 1
              && o.value.1[|h|].VecObj? && |o.value.1[|h|].elems| == |h[l.addr].elems| + |h[r.addr].elems|
              && (forall i :: 0 <= i < |h[l.addr].elems| ==> o.value.1[|h|].elems[i] == h[l.addr].elems[i])
              && (forall i :: 0 <= i < |h[r.addr].elems| ==>
                    o.value.1[|h|].elems[|h[l.addr].elems| + i] == h[r.addr].elems[i])
    ensures l.Str? && r.Str? ==> ApplyBinary(host, Cat, h, l, r) == Ok((Str(l.s + r.s, Runtime), h))
    ensures l.Num? && r.Str? ==> ApplyBinary(host, Cat, h, l, r) == Ok((Str(host.fromNum(l.n) + r.s, Runtime), h))
    ensures l.Str? && r.Num? ==> ApplyBinary(host, Cat, h, l, r) == Ok((Str(l.s + host.fromNum(r.n), Runtime), h))
    ensures l.Num? && r.Num? ==>
              ApplyBinary(host, Cat, h, l, r) == Ok((Str(host.fromNum(l.n) + host.fromNum(r.n), Runtime), h))
    ensures ApplyBinary(host, Cat, h, l, r).Ok?
            <==> (IsVec(h, l) && IsVec(h, r)) || ((l.Str? || l.Num?) && (r.Str? || r.Num?))
  {
  }

  /** A vector literal grows at its end. */
  lemma Appends(host: Host, h: Heap, v: Value, x: Value)
    requires IsVec(h, v)
    ensures var o := ApplyBinary(host, Append, h, v, x);
      && o.Ok? && o.value.0 == v && |o.value.1| == |h|
      && (forall a :: 0 <= a < |h| && a != v.addr ==> o.value.1[a] == h[a])
      && o.value.1[v.addr] == VecObj(h[v.addr].elems + [x])
  {
  }

  // ----- enumerating and unpacking -----

  lemma {:induction false} ReverseAt(vs: seq<Value>, i: nat)
    requires i < |vs|
    ensures Reverse(vs)[|vs| - 1 - i] == vs[i]
  {
    if i > 0 {
      ReverseAt(vs[1..], i - 1);
    }
  }

  /** The targets of a list assignment get the elements in order: the first is on top of the stack. */
  lemma UnpacksInOrder(h: Heap, v: Value, count: nat)
    ensures UnpackVec(h, v, count).Ok? <==> IsVec(h, v) && count <= |h[v.addr].elems|
    ensures UnpackVec(h, v, count).Ok? ==>
              && |UnpackVec(h, v, count).value| == count
              && forall i :: 0 <= i < count ==> UnpackVec(h, v, count).value[count - 1 - i] == h[v.addr].elems[i]
  {
    if UnpackVec(h, v, count).Ok? {
      forall i | 0 <= i < count ensures UnpackVec(h, v, count).value[count - 1 - i] == h[v.addr].elems[i] {
        ReverseAt(h[v.addr].elems[..count], i);
      }
    }
  }

  /** An enumeration goes through the elements, or the indices, and ends behind the last. */
  lemma EnumeratesAll(h: Heap, v: Value, i: nat)
    ensures IsVec(h, v) && i < |h[v.addr].elems| ==>
              EachItem(h, v, i, false) == Ok(h[v.addr].elems[i]) && EachItem(h, v, i, true) == Ok(Num(i as real))
    ensures IsVec(h, v) && i >= |h[v.addr].elems| ==> EachItem(h, v, i, false) == EachItem(h, v, i, true) == Ok(End)
    ensures !IsVec(h, v) ==> EachItem(h, v, i, false).Err? && EachItem(h, v, i, true).Err?
  {
  }
}
