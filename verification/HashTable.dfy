/** The open-addressed hash: dense entries behind an index table of twice the size, a probe
    with an odd step, tombstones, and resizing on insertion and deletion. */
module HashTable {
  import opened Basics

  const EMPTY := -1
  const DELETED := -2

  /** A 32-bit hash code. */
  type Code = n: int | 0 <= n < 0x1_0000_0000

  /** A slot of the entry array; the allocator leaves it unset. */
  datatype Slot<K, V> = Unset | Ent(key: K, val: V)

  function Pow2(n: nat): (p: nat)
    ensures p > 0
  {
    if n == 0 then 1 else 2 * Pow2(n - 1)
  }

  lemma {:induction false} Pow2Adds(a: nat, b: nat)
    ensures Pow2(a) * Pow2(b) == Pow2(a + b)
  {
    if a > 0 {
      Pow2Adds(a - 1, b);
      assert (2 * Pow2(a - 1)) * Pow2(b) == 2 * (Pow2(a - 1) * Pow2(b));
    }
  }

  /** The first cell looked at: the top bits of the code. */
  function Start(lgsz: nat, code: Code): (i: nat)
    requires lgsz <= 31
    ensures i < Pow2(lgsz)
  {
    StartInRange(lgsz, code);
    if lgsz == 0 then 0 else code / Pow2(32 - lgsz)
  }

  lemma Pow2Of32()
    ensures Pow2(32) == 0x1_0000_0000
  {
    assert Pow2(4) == 16;
    Pow2Adds(4, 4);
    Pow2Adds(8, 8);
    Pow2Adds(16, 16);
  }

  lemma QuotientBelow(x: nat, d: nat, p: nat)
    requires d > 0 && x < p * d
    ensures 0 <= x / d < p
  {
    assert x == d * (x / d) + x % d;
    Multiple(x / d - p, d);
    assert d * (x / d) == (x / d - p) * d + p * d;
  }

  /** How large a multiple is, by the sign of the factor. */
  lemma Multiple(q: int, p: int)
    requires p >= 0
    ensures q >= 1 ==> q * p >= p
    ensures q <= -1 ==> q * p + p <= 0
    ensures q == 0 ==> q * p == 0
  {
  }

  lemma StartInRange(lgsz: nat, code: Code)
    requires lgsz <= 31
    ensures 0 <= code / Pow2(32 - lgsz) < Pow2(lgsz)
  {
    Pow2Of32();
    Pow2Adds(lgsz, 32 - lgsz);
    hide Pow2;
    QuotientBelow(code, Pow2(32 - lgsz), Pow2(lgsz));
  }

  /** The distance between probes, odd. */
  function Stride(lgsz: nat, code: Code): (s: nat)
    ensures s % 2 == 1
  {
    StrideIsOdd(code, Pow2(lgsz));
    (2 * code + 1) % Pow2(lgsz + 1)
  }

  lemma StrideIsOdd(code: int, p: nat)
    requires p > 0
    ensures ((2 * code + 1) % (2 * p)) % 2 == 1
  {
    var q, r := (2 * code + 1) / (2 * p), (2 * code + 1) % (2 * p);
    assert 2 * code + 1 == 2 * (p * q) + r;
  }

  /** The cell of the `n`th probe. */
  ghost function Probe(lgsz: nat, code: Code, n: nat): (i: nat)
    requires lgsz <= 31
    ensures i < Pow2(lgsz + 1)
  {
    if n == 0 then Start(lgsz, code)
    else (Probe(lgsz, code, n - 1) + Stride(lgsz, code)) % Pow2(lgsz + 1)
  }

  lemma ProbeStarts(lgsz: nat, code: Code)
    requires lgsz <= 31
    ensures Probe(lgsz, code, 0) == Start(lgsz, code)
  {
  }

  lemma ProbeNext(lgsz: nat, code: Code, n: nat)
    requires lgsz <= 31
    ensures Probe(lgsz, code, n + 1) == (Probe(lgsz, code, n) + Stride(lgsz, code)) % Pow2(lgsz + 1)
  {
  }

  // ----- an odd step reaches every cell -----

  lemma LinearStep(start: int, n: nat, s: int, before: int, q: int, p: nat)
    requires p > 0 && n > 0 && start + (n - 1) * s == before + q * p
    ensures start + n * s == (before + s) % p + (q + (before + s) / p) * p
  {
    var d := (before + s) / p;
    assert before + s == p * d + (before + s) % p;
    assert (q + d) * p == q * p + p * d;
    assert n * s == (n - 1) * s + s;
  }

  lemma {:induction false} ProbeIsLinear(lgsz: nat, code: Code, n: nat) returns (q: int)
    requires lgsz <= 31
    ensures Start(lgsz, code) + n * Stride(lgsz, code) == Probe(lgsz, code, n) + q * Pow2(lgsz + 1)
  {
    hide Pow2, Start, Stride;
    var p, s := Pow2(lgsz + 1), Stride(lgsz, code);
    if n == 0 {
      q := 0;
    } else {
      var q' := ProbeIsLinear(lgsz, code, n - 1);
      var before := Probe(lgsz, code, n - 1);
      q := q' + (before + s) / p;
      LinearStep(Start(lgsz, code), n, s, before, q', p);
    }
  }

  /** An odd number has an inverse modulo a power of two. */
  lemma {:induction false} OddInverse(s: int, n: nat) returns (inv: int, q: int)
    requires s % 2 == 1
    ensures inv * s == 1 + q * Pow2(n)
  {
    if n == 0 {
      inv, q := 0, -1;
    } else {
      var i, r := OddInverse(s, n - 1);
      inv, q := DoubleModulus(s, i, r, Pow2(n - 1));
    }
  }

  lemma DoubleModulus(s: int, i: int, r: int, p: int) returns (inv: int, q: int)
    requires s % 2 == 1 && i * s == 1 + r * p
    ensures inv * s == 1 + q * (2 * p)
  {
    if r % 2 == 0 {
      inv, q := i, r / 2;
      Halved(r, p);
    } else {
      inv, q := i + p, (r + s) / 2;
      Halved(r + s, p);
      assert (i + p) * s == i * s + p * s;
      assert (r + s) * p == r * p + p * s;
    }
  }

  lemma Halved(r: int, p: int)
    requires r % 2 == 0
    ensures (r / 2) * (2 * p) == r * p
  {
    assert r == 2 * (r / 2);
  }

  lemma SameRemainder(a: nat, b: nat, q: int, p: nat)
    requires p > 0 && a < p && b < p && a == b + q * p
    ensures a == b
  {
    Multiple(q, p);
  }

  /** With an inverse of the step, some number of steps leads from `start` to `c`. */
  lemma StepsTo(start: int, c: int, s: int, inv: int, q: int, p: nat) returns (n: nat, z: int)
    requires p > 0 && inv * s == 1 + q * p
    ensures start + n * s == c + z * p
  {
    var d := c - start;
    var t := (d * inv) / p;
    n := (d * inv) % p;
    z := d * q - t * s;
    assert n == d * inv - t * p;
    assert n * s == (d * inv) * s - (t * p) * s;
    assert (d * inv) * s == d * (inv * s) == d + d * (q * p);
    assert d * (q * p) == (d * q) * p && (t * p) * s == (t * s) * p;
    assert z * p == (d * q) * p - (t * s) * p;
  }

  /** Every cell is probed. */
  lemma ProbeCovers(lgsz: nat, code: Code, c: nat) returns (n: nat)
    requires lgsz <= 31 && c < Pow2(lgsz + 1)
    ensures Probe(lgsz, code, n) == c
  {
    hide Pow2, Start, Stride;
    var p, s := Pow2(lgsz + 1), Stride(lgsz, code);
    var inv, q := OddInverse(s, lgsz + 1);
    var z;
    n, z := StepsTo(Start(lgsz, code), c, s, inv, q, p);
    var r := ProbeIsLinear(lgsz, code, n);
    assert (r - z) * p == r * p - z * p;
    SameRemainder(c, Probe(lgsz, code, n), r - z, p);
  }

  // ----- the table as a value -----

  /** How many cells are not empty; a deleted one counts. */
  function Used(tab: seq<int>): (n: nat)
    ensures n <= |tab|
  {
    if tab == [] then 0
    else Used(tab[..|tab| - 1]) + if tab[|tab| - 1] == EMPTY then 0 else 1
  }

  lemma {:induction false} UsedAfter(tab: seq<int>, c: nat, v: int)
    requires c < |tab|
    ensures Used(tab[c := v]) == Used(tab) + (if v == EMPTY then 0 else 1) - if tab[c] == EMPTY then 0 else 1
  {
    var last := |tab| - 1;
    if c == last {
      assert tab[c := v][..last] == tab[..last];
    } else {
      UsedAfter(tab[..last], c, v);
      assert tab[c := v][..last] == tab[..last][c := v];
    }
  }

  lemma {:induction false} UsedOfFull(tab: seq<int>)
    requires forall c :: 0 <= c < |tab| ==> tab[c] != EMPTY
    ensures Used(tab) == |tab|
  {
    if tab != [] {
      UsedOfFull(tab[..|tab| - 1]);
    }
  }

  datatype Image<K, V> = Image(lgsz: nat, tab: seq<int>, ents: seq<Slot<K, V>>, next: nat) {
    predicate Shaped() {
      && lgsz <= 31 && |tab| == Pow2(lgsz + 1) && |ents| == Pow2(lgsz) && next <= Pow2(lgsz)
      && forall c :: 0 <= c < |tab| ==> tab[c] == EMPTY || tab[c] == DELETED || 0 <= tab[c] < next
    }

    /** The first `n` probes for a code meet no empty cell. */
    ghost predicate Path(code: Code, n: nat)
      requires Shaped()
    {
      forall m :: 0 <= m < n ==> tab[Probe(lgsz, code, m)] != EMPTY
    }

    /** The cell holds a live entry for the key. */
    ghost predicate Holds(c: nat, key: K, val: V)
      requires Shaped()
    {
      c < |tab| && tab[c] >= 0 && ents[tab[c]] == Ent(key, val)
    }
  }

  /** The table represents `model`: every key lies at its `at`th probe with no empty cell before
      it, every live cell is some key's cell, and the cells in use are as many as the entries. */
  ghost predicate Good<K, V>(hash: K -> Code, im: Image<K, V>, at: map<K, nat>, model: map<K, V>) {
    && im.Shaped() && Used(im.tab) == im.next && at.Keys == model.Keys
    && (forall k :: k in at ==> im.Holds(Probe(im.lgsz, hash(k), at[k]), k, model[k]) && im.Path(hash(k), at[k]))
    && (forall c :: 0 <= c < |im.tab| && im.tab[c] >= 0 ==>
        im.ents[im.tab[c]].Ent? && im.ents[im.tab[c]].key in at
        && c == Probe(im.lgsz, hash(im.ents[im.tab[c]].key), at[im.ents[im.tab[c]].key]))
  }

  lemma GoodIsShaped<K, V>(hash: K -> Code, im: Image<K, V>, at: map<K, nat>, model: map<K, V>)
    requires Good(hash, im, at, model)
    ensures im.Shaped() && Used(im.tab) == im.next && at.Keys == model.Keys
  {
  }

  /** A probe that meets a cell in use has found the key, or the key lies further on. */
  lemma Passes<K, V>(hash: K -> Code, im: Image<K, V>, at: map<K, nat>, model: map<K, V>, k: K, n: nat)
    requires Good(hash, im, at, model) && im.tab[Probe(im.lgsz, hash(k), n)] != EMPTY && (k in at ==> n <= at[k])
    ensures var c := Probe(im.lgsz, hash(k), n);
      && (im.tab[c] != DELETED ==> im.tab[c] < |im.ents| && im.ents[im.tab[c]].Ent?)
      && if im.tab[c] != DELETED && im.ents[im.tab[c]].key == k
         then k in model && c == Probe(im.lgsz, hash(k), at[k]) && im.Holds(c, k, model[k])
         else k in at ==> n + 1 <= at[k]
  {
    hide Probe, Used, Pow2;
  }

  lemma StopsAtEmpty<K, V>(hash: K -> Code, im: Image<K, V>, at: map<K, nat>, model: map<K, V>, k: K, n: nat)
    requires Good(hash, im, at, model) && im.tab[Probe(im.lgsz, hash(k), n)] == EMPTY && (k in at ==> n <= at[k])
    ensures k !in model
  {
    hide Probe, Used, Pow2;
  }

  /** At most half the cells are in use, so every probe sequence comes to an empty one. */
  lemma EmptyAhead<K, V>(im: Image<K, V>, code: Code) returns (n: nat)
    requires im.Shaped() && Used(im.tab) <= im.next
    ensures im.tab[Probe(im.lgsz, code, n)] == EMPTY
  {
    if forall c :: 0 <= c < |im.tab| ==> im.tab[c] != EMPTY {
      UsedOfFull(im.tab);
      assert false;
    }
    var c :| 0 <= c < |im.tab| && im.tab[c] == EMPTY;
    n := ProbeCovers(im.lgsz, code, c);
  }

  /** Entering a key at the first empty cell of its probe sequence. */
  lemma PutNew<K, V>(hash: K -> Code, im: Image<K, V>, at: map<K, nat>, model: map<K, V>, k: K, v: V, n: nat)
    requires Good(hash, im, at, model) && k !in model && im.next < Pow2(im.lgsz)
    requires im.Path(hash(k), n) && im.tab[Probe(im.lgsz, hash(k), n)] == EMPTY
    ensures Good(hash, im.(tab := im.tab[Probe(im.lgsz, hash(k), n) := im.next],
                           ents := im.ents[im.next := Ent(k, v)], next := im.next + 1), at[k := n], model[k := v])
  {
    hide Probe, Used, Pow2;
    UsedAfter(im.tab, Probe(im.lgsz, hash(k), n), im.next);
  }

  lemma PutOld<K, V>(hash: K -> Code, im: Image<K, V>, at: map<K, nat>, model: map<K, V>, k: K, v: V)
    requires Good(hash, im, at, model) && k in model
    ensures var e := im.tab[Probe(im.lgsz, hash(k), at[k])];
      Good(hash, im.(ents := im.ents[e := im.ents[e].(val := v)]), at, model[k := v])
  {
    hide Probe, Used, Pow2;
  }

  /** A tombstone keeps every other probe path. */
  lemma Drop<K, V>(hash: K -> Code, im: Image<K, V>, at: map<K, nat>, model: map<K, V>, k: K)
    requires Good(hash, im, at, model) && k in model
    ensures Good(hash, im.(tab := im.tab[Probe(im.lgsz, hash(k), at[k]) := DELETED]), at - {k}, model - {k})
  {
    hide Probe, Used, Pow2;
    UsedAfter(im.tab, Probe(im.lgsz, hash(k), at[k]), DELETED);
  }

  // ----- the mutable record -----

  class HashRec<K(==), V> {
    const hash: K -> Code
    const lgsz: nat
    const tab: array<int>
    const ents: array<Slot<K, V>>
    var size: nat
    var next: nat
    ghost var at: map<K, nat>
    ghost var model: map<K, V>

    function Value(): Image<K, V>
      reads this, tab, ents
    {
      Image(lgsz, tab[..], ents[..], next)
    }

    ghost predicate Valid()
      reads this, tab, ents
    {
      Good(hash, Value(), at, model) && size == |model|
    }

    constructor (lgsz: nat, hash: K -> Code)
      requires lgsz <= 31
      ensures Valid() && this.hash == hash && this.lgsz == lgsz && model == map[] && next == 0
      ensures fresh(tab) && fresh(ents)
    {
      this.lgsz, this.hash, size, next, at, model := lgsz, hash, 0, 0, map[], map[];
      tab := new int[Pow2(lgsz + 1)](_ => EMPTY);
      ents := new Slot<K, V>[Pow2(lgsz)](_ => Unset);
      new;
      UsedOfEmpty(tab[..]);
    }

    /** The cell that holds the key, or the first empty one of its probe sequence. */
    method FindCell(key: K) returns (i: nat, ghost n: nat)
      requires Valid()
      ensures i < tab.Length && i == Probe(lgsz, hash(key), n) && Value().Path(hash(key), n)
      ensures key in model ==> i == Probe(lgsz, hash(key), at[key]) && Value().Holds(i, key, model[key])
      ensures key !in model ==> tab[i] == EMPTY
    {
      hide Start, Stride, Used, Good, Probe, Pow2;
      ghost var im := Value();
      GoodIsShaped(hash, im, at, model);
      var ncells, stride := Pow2(lgsz + 1), Stride(lgsz, hash(key));
      ghost var last := EmptyAhead(im, hash(key));
      i, n := Start(lgsz, hash(key)), 0;
      ProbeStarts(lgsz, hash(key));
      while tab[i] != EMPTY
        invariant i < tab.Length && i == Probe(lgsz, hash(key), n) && n <= last
        invariant im.Path(hash(key), n) && (key in at ==> n <= at[key])
        decreases last - n
      {
        Passes(hash, im, at, model, key, n);
        if tab[i] != DELETED && ents[tab[i]].key == key { return; }
        ProbeNext(lgsz, hash(key), n);
        i := (i + stride) % ncells;
        n := n + 1;
      }
      StopsAtEmpty(hash, im, at, model, key, n);
    }

    /** Sets a key for which there is room. */
    method HashSet(key: K, val: V)
      requires Valid() && (key in model || next < Pow2(lgsz))
      modifies this`size, this`next, this`at, this`model, tab, ents
      ensures Valid() && model == old(model)[key := val]
      ensures next == old(next) + if key in old(model) then 0 else 1
    {
      var cell, n := FindCell(key);
      hide Good, Probe, Used, Pow2;
      if tab[cell] == EMPTY {
        Enter(cell, key, val, n);
      } else {
        Replace(cell, key, val);
      }
    }

    /** Fills an empty cell with a new entry; the table has more cells than entries, so none is overrun. */
    method Enter(cell: nat, key: K, val: V, ghost n: nat)
      requires Valid() && key !in model && next < Pow2(lgsz) && cell < tab.Length && tab[cell] == EMPTY
      requires cell == Probe(lgsz, hash(key), n) && Value().Path(hash(key), n)
      modifies this`size, this`next, this`at, this`model, tab, ents
      ensures Valid() && model == old(model)[key := val] && next == old(next) + 1
    {
      hide Good, Probe, Used, Pow2;
      ghost var im := Value();
      GoodIsShaped(hash, im, at, model);
      PutNew(hash, im, at, model, key, val, n);
      HalfIsLess(lgsz);
      var ent := next;
      if ent >= tab.Length { assert false; }
      next := next + 1;
      tab[cell] := ent;
      size := size + 1;
      ents[ent] := Ent(key, val);
      at, model := at[key := n], model[key := val];
      assert Value() == im.(tab := im.tab[cell := im.next], ents := im.ents[im.next := Ent(key, val)],
          next := im.next + 1);
    }

    /** Sets the value of the entry in a key's cell. */
    method Replace(cell: nat, key: K, val: V)
      requires Valid() && key in model && cell == Probe(lgsz, hash(key), at[key]) && cell < tab.Length
      requires Value().Holds(cell, key, model[key])
      modifies this`model, ents
      ensures Valid() && model == old(model)[key := val]
    {
      hide Good, Probe, Used, Pow2;
      ghost var im := Value();
      GoodIsShaped(hash, im, at, model);
      PutOld(hash, im, at, model, key, val);
      var ent := tab[cell];
      ents[ent] := ents[ent].(val := val);
      model := model[key := val];
      assert Value() == im.(ents := im.ents[ent := im.ents[ent].(val := val)]);
    }

    /** Puts a tombstone in the key's cell. */
    method Bury(cell: nat, ghost key: K)
      requires Valid() && key in model && cell == Probe(lgsz, hash(key), at[key]) && cell < tab.Length
      modifies this`size, this`at, this`model, tab
      ensures Valid() && model == old(model) - {key} && size == old(size) - 1
    {
      hide Probe, Used, Pow2, Good;
      ghost var im := Value();
      Drop(hash, im, at, model, key);
      SizeWithout(model, key);
      tab[cell] := DELETED;
      size := size - 1;
      at, model := at - {key}, model - {key};
      assert Value() == im.(tab := im.tab[cell := DELETED]);
    }

    method Remove(key: K) returns (found: bool)
      requires Valid()
      modifies this`size, this`at, this`model, tab
      ensures Valid() && found == (key in old(model)) && model == old(model) - {key}
    {
      var cell, n := FindCell(key);
      hide Probe, Used, Pow2;
      found := tab[cell] >= 0;
      if found {
        Bury(cell, key);
      } else {
        assert model - {key} == model;
      }
    }

    method Overwrite(key: K, val: V) returns (ok: bool)
      requires Valid()
      modifies this`model, ents
      ensures Valid() && ok == (key in old(model)) && model == if ok then old(model)[key := val] else old(model)
    {
      var cell, n := FindCell(key);
      hide Good, Probe, Used, Pow2;
      ok := tab[cell] >= 0;
      if ok {
        Replace(cell, key, val);
      }
    }

    /** The live keys in the order of their cells. */
    method LiveKeys() returns (keys: seq<K>)
      requires Valid()
      ensures |keys| == |model| && (forall k :: k in keys <==> k in model)
      ensures forall a, b :: 0 <= a < b < |keys| ==> keys[a] != keys[b]
    {
      hide Good, Pow2, Used, Probe;
      ghost var im := Value();
      ghost var seen: map<K, V> := map[];
      GoodIsShaped(hash, im, at, model);
      keys := [];
      for i := 0 to tab.Length
        invariant Copied(hash, im, at, model, i, seen) && |keys| == |seen| && (forall k :: k in keys <==> k in seen)
        invariant forall a, b :: 0 <= a < b < |keys| ==> keys[a] != keys[b]
      {
        CopiesCell(hash, im, at, model, i, seen);
        if tab[i] >= 0 {
          seen := seen[ents[tab[i]].key := ents[tab[i]].val];
          keys := keys + [ents[tab[i]].key];
        }
      }
      CopiedAll(hash, im, at, model, seen);
    }

    method FindSym(sym: K) returns (out: Option<V>)
      requires Valid()
      ensures out == if sym in model then Some(model[sym]) else None
    {
      hide Start, Stride, Used, Good, Probe, Pow2;
      ghost var im := Value();
      GoodIsShaped(hash, im, at, model);
      var ncells, stride := Pow2(lgsz + 1), Stride(lgsz, hash(sym));
      ghost var last := EmptyAhead(im, hash(sym));
      var cell := Start(lgsz, hash(sym));
      ghost var n := 0;
      ProbeStarts(lgsz, hash(sym));
      while tab[cell] != EMPTY
        invariant cell < tab.Length && cell == Probe(lgsz, hash(sym), n) && n <= last
        invariant im.Path(hash(sym), n) && (sym in at ==> n <= at[sym])
        decreases last - n
      {
        Passes(hash, im, at, model, sym, n);
        if tab[cell] != DELETED && sym == ents[tab[cell]].key {
          return Some(ents[tab[cell]].val);
        }
        ProbeNext(lgsz, hash(sym), n);
        cell := (cell + stride) % ncells;
        n := n + 1;
      }
      StopsAtEmpty(hash, im, at, model, sym, n);
      out := None;
    }

    /** The first empty cell of a symbol's probe sequence. */
    method FindEmpty(sym: K) returns (cell: nat, ghost n: nat)
      requires Valid()
      ensures cell < tab.Length && cell == Probe(lgsz, hash(sym), n) && Value().Path(hash(sym), n) && tab[cell] == EMPTY
    {
      hide Start, Stride, Used, Good, Probe, Pow2;
      ghost var im := Value();
      GoodIsShaped(hash, im, at, model);
      var ncells, stride := Pow2(lgsz + 1), Stride(lgsz, hash(sym));
      ghost var last := EmptyAhead(im, hash(sym));
      cell, n := Start(lgsz, hash(sym)), 0;
      ProbeStarts(lgsz, hash(sym));
      while tab[cell] != EMPTY
        invariant cell < tab.Length && cell == Probe(lgsz, hash(sym), n) && n <= last && im.Path(hash(sym), n)
        decreases last - n
      {
        ProbeNext(lgsz, hash(sym), n);
        cell := (cell + stride) % ncells;
        n := n + 1;
      }
    }

    method AddSym(sym: K, val: V)
      requires Valid() && sym !in model && next < Pow2(lgsz)
      modifies this`size, this`next, this`at, this`model, tab, ents
      ensures Valid() && model == old(model)[sym := val] && next == old(next) + 1
    {
      var cell, n := FindEmpty(sym);
      Enter(cell, sym, val, n);
    }
  }

  lemma HalfIsLess(lgsz: nat)
    ensures Pow2(lgsz) < Pow2(lgsz + 1)
  {
  }

  lemma SizeWithout<K, V>(m: map<K, V>, k: K)
    requires k in m
    ensures |m - {k}| == |m| - 1
  {
    assert (m - {k}).Keys == m.Keys - {k};
    assert |m.Keys - {k}| == |m.Keys| - 1;
    assert |m| == |m.Keys| && |m - {k}| == |(m - {k}).Keys|;
  }

  lemma {:induction false} UsedOfEmpty(tab: seq<int>)
    requires forall c :: 0 <= c < |tab| ==> tab[c] == EMPTY
    ensures Used(tab) == 0
  {
    if tab != [] {
      UsedOfEmpty(tab[..|tab| - 1]);
    }
  }

  /** The number of bits of `n`. */
  function BitLength(n: nat): nat {
    if n == 0 then 0 else 1 + BitLength(n / 2)
  }

  lemma {:induction false} BitLengthFits(n: nat)
    ensures n < Pow2(BitLength(n)) && (n > 0 ==> Pow2(BitLength(n) - 1) <= n)
  {
    if n > 0 {
      BitLengthFits(n / 2);
    }
  }

  lemma BitLengthOfNothing()
    ensures BitLength(0) == 0
  {
  }

  lemma BitLengthBound(n: nat)
    requires n < 0x8000_0000
    ensures BitLength(n) <= 31
  {
    BitLengthFits(n);
    Pow2Of32();
    if BitLength(n) > 31 {
      Pow2Monotone(31, BitLength(n) - 1);
    }
  }

  lemma {:induction false} Pow2Monotone(a: nat, b: nat)
    requires a <= b
    ensures Pow2(a) <= Pow2(b)
  {
    if a < b {
      Pow2Monotone(a, b - 1);
    }
  }

  /** The part of the table whose cells come before `i`. */
  ghost predicate Copied<K, V>(hash: K -> Code, im: Image<K, V>, at: map<K, nat>, from: map<K, V>, i: nat, to: map<K,
      V>)
    requires im.lgsz <= 31
  {
    && (forall k :: k in to ==> k in from && k in at && to[k] == from[k] && Probe(im.lgsz, hash(k), at[k]) < i)
    && (forall k :: k in from && k in at && Probe(im.lgsz, hash(k), at[k]) < i ==> k in to)
  }

  /** One more cell: a live one adds its key, another adds nothing. */
  lemma CopiesCell<K, V>(hash: K -> Code, im: Image<K, V>, at: map<K, nat>, from: map<K, V>, i: nat, to: map<K, V>)
    requires Good(hash, im, at, from) && i < |im.tab| && Copied(hash, im, at, from, i, to)
    ensures im.tab[i] < 0 ==> Copied(hash, im, at, from, i + 1, to)
    ensures im.tab[i] >= 0 ==>
      var e := im.ents[im.tab[i]];
      e.Ent? && e.key !in to && e.key in from && Copied(hash, im, at, from, i + 1, to[e.key := e.val])
  {
    hide Probe, Used, Pow2;
  }

  lemma CopiedAll<K, V>(hash: K -> Code, im: Image<K, V>, at: map<K, nat>, from: map<K, V>, to: map<K, V>)
    requires Good(hash, im, at, from) && Copied(hash, im, at, from, |im.tab|, to)
    ensures to == from
  {
  }

  lemma SmallerMap<K, V>(a: map<K, V>, b: map<K, V>, k: K)
    requires a.Keys <= b.Keys && k in b && k !in a
    ensures |a| < |b|
  {
    SubsetSize(a.Keys, b.Keys - {k});
    assert |b.Keys - {k}| == |b.Keys| - 1;
    assert |a| == |a.Keys| && |b| == |b.Keys|;
  }

  lemma {:induction false} SubsetSize<T>(a: set<T>, b: set<T>)
    requires a <= b
    ensures |a| <= |b|
  {
    if x :| x in a {
      SubsetSize(a - {x}, b - {x});
    }
  }

  // ----- the hash object -----

  class HashObject<K(==), V> {
    const hash: K -> Code
    var rec: HashRec?<K, V>

    ghost predicate Valid()
      reads this, rec, if rec != null then {rec.tab, rec.ents} else {}
    {
      rec != null ==> rec.Valid() && rec.hash == hash
    }

    /** The finite map this hash stands for. */
    ghost function Model(): map<K, V>
      reads this, rec
    {
      if rec == null then map[] else rec.model
    }

    constructor (hash: K -> Code)
      ensures Valid() && Model() == map[] && rec == null && this.hash == hash
    {
      this.hash, rec := hash, null;
    }

    /** The table size for some number of entries, by halving. */
    static method SizeFor(entries: nat) returns (lgsz: nat)
      ensures lgsz == BitLength(entries)
    {
      var oldsz := entries;
      lgsz := 0;
      while oldsz != 0
        invariant lgsz + BitLength(oldsz) == BitLength(entries)
      {
        oldsz := oldsz / 2;
        lgsz := lgsz + 1;
      }
    }

    /** A new record with a table for the live entries and as many again, holding the same map. */
    method Resize()
      requires Valid() && |Model()| < 0x8000_0000
      modifies this
      ensures rec != null && Valid() && fresh(rec) && fresh(rec.tab) && fresh(rec.ents)
      ensures Model() == old(Model()) && rec.next == |Model()| < Pow2(rec.lgsz) && rec.lgsz == BitLength(|Model()|)
    {
      hide Good, Pow2, BitLength;
      var hr := rec;
      BitLengthFits(|Model()|);
      BitLengthBound(|Model()|);
      BitLengthOfNothing();
      var lgsz := 0;
      if hr != null { lgsz := SizeFor(hr.size); }
      var hr2 := new HashRec<K, V>(lgsz, hash);
      if hr != null { CopyInto(hr, hr2); }
      rec := hr2;
    }

    /** Enters every live entry of a record into an empty one with room for all. */
    method CopyInto(hr: HashRec<K, V>, hr2: HashRec<K, V>)
      requires hr.Valid() && hr2.Valid() && hr2.model == map[] && hr2.next == 0 && hr.hash == hr2.hash
      requires hr != hr2 && hr.tab != hr2.tab && hr.ents != hr2.ents && |hr.model| <= Pow2(hr2.lgsz)
      modifies hr2, hr2.tab, hr2.ents
      ensures hr2.Valid() && hr2.model == hr.model && hr2.next == |hr.model|
    {
      hide Good, Pow2, Used, Probe;
      ghost var im := hr.Value();
      GoodIsShaped(hr.hash, im, hr.at, hr.model);
      for i := 0 to hr.tab.Length
        invariant hr2.Valid() && hr2.next == |hr2.model| && Copied(hr.hash, im, hr.at, hr.model, i, hr2.model)
      {
        CopiesCell(hr.hash, im, hr.at, hr.model, i, hr2.model);
        if hr.tab[i] >= 0 {
          SmallerMap(hr2.model, hr.model, hr.ents[hr.tab[i]].key);
          hr2.HashSet(hr.ents[hr.tab[i]].key, hr.ents[hr.tab[i]].val);
        }
      }
      CopiedAll(hr.hash, im, hr.at, hr.model, hr2.model);
    }

    method Size() returns (n: nat)
      requires Valid()
      ensures n == |Model()|
    {
      n := if rec != null then rec.size else 0;
    }

    method Get(key: K) returns (out: Option<V>)
      requires Valid()
      ensures out == if key in Model() then Some(Model()[key]) else None
    {
      out := None;
      if rec != null {
        var cell, n := rec.FindCell(key);
        hide Probe, Used, Pow2;
        if rec.tab[cell] >= 0 {
          out := Some(rec.ents[rec.tab[cell]].val);
        }
      }
    }

    method Set(key: K, val: V)
      requires Valid() && |Model()| < 0x8000_0000
      modifies this, rec, if rec != null then {rec.tab, rec.ents} else {}
      ensures Valid() && Model() == old(Model())[key := val]
      ensures rec == old(rec) || (rec != null && fresh(rec) && fresh(rec.tab) && fresh(rec.ents))
    {
      if rec == null || rec.next >= Pow2(rec.lgsz) {
        Resize();
      }
      rec.HashSet(key, val);
    }

    /** Removes a key; a table less than half full of live entries shrinks, except the smallest. */
    method Delete(key: K)
      requires Valid() && |Model()| < 0x8000_0000
      modifies this, rec, if rec != null then {rec.tab} else {}
      ensures Valid() && Model() == old(Model()) - {key}
      ensures rec == old(rec) || (rec != null && fresh(rec) && fresh(rec.tab) && fresh(rec.ents))
    {
      hide Probe, Used;
      if rec != null {
        var cell := rec.Remove(key);
        if cell && rec.lgsz > 0 && rec.size < Pow2(rec.lgsz - 1) {
          Resize();
        }
      }
    }

    /** Every live key, each once. */
    method Keys() returns (keys: seq<K>)
      requires Valid()
      ensures |keys| == |Model()| && (forall k :: k in keys <==> k in Model())
      ensures forall a, b :: 0 <= a < b < |keys| ==> keys[a] != keys[b]
    {
      keys := [];
      if rec != null {
        keys := rec.LiveKeys();
      }
    }

    /** Sets a key only when it is there. */
    method TrySet(key: K, val: V) returns (ok: bool)
      requires Valid()
      modifies rec, if rec != null then {rec.ents} else {}
      ensures Valid() && ok == (key in old(Model()))
      ensures Model() == if ok then old(Model())[key := val] else old(Model())
    {
      ok := false;
      if rec != null {
        ok := rec.Overwrite(key, val);
      }
    }

    /** The lookup of an interned symbol. */
    method Sym(sym: K) returns (out: Option<V>)
      requires Valid()
      ensures out == if sym in Model() then Some(Model()[sym]) else None
    {
      out := None;
      if rec != null {
        out := rec.FindSym(sym);
      }
    }

    /** Enters an interned symbol that is not there, without comparing keys. */
    method NewSym(sym: K, val: V)
      requires Valid() && |Model()| < 0x8000_0000 && sym !in Model()
      modifies this, rec, if rec != null then {rec.tab, rec.ents} else {}
      ensures Valid() && Model() == old(Model())[sym := val]
      ensures rec == old(rec) || (rec != null && fresh(rec) && fresh(rec.tab) && fresh(rec.ents))
    {
      if rec == null || rec.next >= Pow2(rec.lgsz) {
        Resize();
      }
      rec.AddSym(sym, val);
    }
  }

  // ----- whole runs -----

  datatype HashOp<K, V> = Put(key: K, val: V) | Find(key: K) | Change(key: K, val: V) | Remove(key: K)
                        | Symbol(sym: K) | AddSymbol(sym: K, val: V) | List | Count

  datatype Reply<K, V> = Nothing | Found(out: Option<V>) | Told(ok: bool) | Listed(keys: seq<K>) | Counted(n: nat)

  /** What an operation does to a finite map. */
  function Does<K, V>(m: map<K, V>, op: HashOp<K, V>): map<K, V> {
    match op
    case Put(k, v) => m[k := v]
    case Change(k, v) => if k in m then m[k := v] else m
    case Remove(k) => m - {k}
    case AddSymbol(k, v) => m[k := v]
    case _ => m
  }

  /** What it may answer; the order of the keys is not told. */
  ghost predicate Answers<K, V>(m: map<K, V>, op: HashOp<K, V>, r: Reply<K, V>) {
    match op
    case Find(k) => r == Found(if k in m then Some(m[k]) else None)
    case Symbol(k) => r == Found(if k in m then Some(m[k]) else None)
    case Change(k, _) => r == Told(k in m)
    case List =>
      && r.Listed? && |r.keys| == |m| && (forall k :: k in r.keys ==> k in m) && (forall k :: k in m ==> k in r.keys)
      && forall a, b :: 0 <= a < b < |r.keys| ==> r.keys[a] != r.keys[b]
    case Count => r == Counted(|m|)
    case _ => r == Nothing
  }

  /** What a run leaves of the empty map. */
  function Left<K, V>(ops: seq<HashOp<K, V>>): (m: map<K, V>)
    ensures |m| <= |ops|
  {
    if ops == [] then map[]
    else
      var m := Left(ops[..|ops| - 1]);
      DoesOneMore(m, ops[|ops| - 1]);
      Does(m, ops[|ops| - 1])
  }

  lemma DoesOneMore<K, V>(m: map<K, V>, op: HashOp<K, V>)
    ensures |Does(m, op)| <= |m| + 1
  {
    var extra := if op.Put? then {op.key} else if op.AddSymbol? then {op.sym} else {};
    assert Does(m, op).Keys <= m.Keys + extra;
    SubsetSize(Does(m, op).Keys, m.Keys + extra);
    assert |m.Keys + extra| <= |m.Keys| + |extra|;
    assert |Does(m, op)| == |Does(m, op).Keys| && |m| == |m.Keys|;
  }

  lemma LeftNext<K, V>(ops: seq<HashOp<K, V>>, i: nat)
    requires i < |ops|
    ensures Left(ops[..i + 1]) == Does(Left(ops[..i]), ops[i])
  {
    assert ops[..i + 1][..i] == ops[..i];
  }

  /** Any run on a fresh hash, whatever the hash function, leaves what it would leave of a
      finite map and answers what it would answer there. A symbol is added only while absent. */
  method Run<K(==), V>(hash: K -> Code, ops: seq<HashOp<K, V>>) returns (h: HashObject<K, V>, answers: seq<Reply<K, V>>)
    requires |ops| < 0x8000_0000
    requires forall i :: 0 <= i < |ops| && ops[i].AddSymbol? ==> ops[i].sym !in Left(ops[..i])
    ensures h.Valid() && h.Model() == Left(ops) && |answers| == |ops|
    ensures forall i :: 0 <= i < |ops| ==> Answers(Left(ops[..i]), ops[i], answers[i])
  {
    hide Left, Does, Answers, Good;
    h := new HashObject(hash);
    answers := [];
    assert h.Model() == Left(ops[..0]) by { LeftOfNothing(ops); }
    for i := 0 to |ops|
      invariant fresh(h) && (h.rec != null ==> fresh(h.rec) && fresh(h.rec.tab) && fresh(h.rec.ents))
      invariant h.Valid() && h.Model() == Left(ops[..i]) && |answers| == i
      invariant forall k :: 0 <= k < i ==> Answers(Left(ops[..k]), ops[k], answers[k])
    {
      LeftNext(ops, i);
      var r := Act(h, ops[i]);
      answers := answers + [r];
    }
    assert ops[..|ops|] == ops;
  }

  lemma LeftOfNothing<K, V>(ops: seq<HashOp<K, V>>)
    ensures Left(ops[..0]) == map[]
  {
  }

  method Act<K(==), V>(h: HashObject<K, V>, op: HashOp<K, V>) returns (r: Reply<K, V>)
    requires h.Valid() && |h.Model()| < 0x8000_0000 && (op.AddSymbol? ==> op.sym !in h.Model())
    modifies h, h.rec, if h.rec != null then {h.rec.tab, h.rec.ents} else {}
    ensures h.Valid() && h.Model() == Does(old(h.Model()), op) && Answers(old(h.Model()), op, r)
    ensures h.rec == old(h.rec) || (h.rec != null && fresh(h.rec) && fresh(h.rec.tab) && fresh(h.rec.ents))
  {
    hide Good;
    r := Nothing;
    match op {
      case Put(k, v) => h.Set(k, v);
      case Find(k) =>
        var out := h.Get(k);
        r := Found(out);
      case Change(k, v) =>
        var ok := h.TrySet(k, v);
        r := Told(ok);
      case Remove(k) => h.Delete(k);
      case Symbol(k) =>
        var out := h.Sym(k);
        r := Found(out);
      case AddSymbol(k, v) => h.NewSym(k, v);
      case List =>
        var keys := h.Keys();
        r := Listed(keys);
      case Count =>
        var n := h.Size();
        r := Counted(n);
    }
  }
}
