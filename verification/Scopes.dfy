/** Looking up and setting a symbol along the locals and the closures: a first pass that
    compares string objects by identity, and a second that compares their text. */
module Scopes {
  import opened Basics
  import opened Values

  /** The hash of the locals, then those of the functions outward. A function made outside
      every namespace has none, and the first pass stops there. */
  type Chain = seq<Members>

  /** Every entry lies under the text of its key object. */
  ghost predicate Sound(chain: Chain) {
    forall i, k :: 0 <= i < |chain| && k in chain[i] ==> Key(chain[i][k].key) == k
  }

  /** The symbol's text is entered nowhere under another object. */
  ghost predicate Alone(chain: Chain, sym: Value) {
    forall i :: 0 <= i < |chain| && Key(sym) in chain[i] ==> HoldsObject(chain[i], sym)
  }

  /** The first hash from `i` on that holds the text, or the end. */
  function ByText(chain: Chain, sym: Value, i: nat): (k: nat)
    requires i <= |chain|
    ensures i <= k <= |chain| && (k < |chain| ==> Key(sym) in chain[k])
    ensures forall j :: i <= j < k ==> Key(sym) !in chain[j]
    decreases |chain| - i
  {
    if i == |chain| || Key(sym) in chain[i] then i else ByText(chain, sym, i + 1)
  }

  /** The first hash from `i` on that holds the object, or the end. */
  function ByObject(chain: Chain, sym: Value, i: nat): (k: nat)
    requires i <= |chain|
    ensures i <= k <= |chain| && (k < |chain| ==> HoldsObject(chain[k], sym))
    ensures forall j :: i <= j < k ==> !HoldsObject(chain[j], sym)
    decreases |chain| - i
  {
    if i == |chain| || HoldsObject(chain[i], sym) then i else ByObject(chain, sym, i + 1)
  }

  function At(chain: Chain, sym: Value, k: nat): Option<Value>
    requires k < |chain| ==> Key(sym) in chain[k]
  {
    if k < |chain| then Some(chain[k][Key(sym)].val) else None
  }

  /** The meaning of a symbol: its innermost binding by text. */
  function Lookup(chain: Chain, sym: Value): Option<Value> {
    At(chain, sym, ByText(chain, sym, 0))
  }

  /** What the two passes together find. */
  function TwoPass(chain: Chain, sym: Value): Option<Value> {
    var k := ByObject(chain, sym, 0);
    if k < |chain| then At(chain, sym, k) else Lookup(chain, sym)
  }

  // ----- the operations -----

  /** The first pass, by identity, then the second, by text. */
  method GetLocal(chain: Chain, sym: Value) returns (out: Option<Value>)
    ensures out == TwoPass(chain, sym)
  {
    var i := 0;
    while i < |chain|
      invariant i <= |chain| && ByObject(chain, sym, 0) == ByObject(chain, sym, i)
    {
      if HoldsObject(chain[i], sym) {
        return Some(chain[i][Key(sym)].val);
      }
      i := i + 1;
    }
    out := GetLocal2(chain, sym);
  }

  method GetLocal2(chain: Chain, sym: Value) returns (out: Option<Value>)
    ensures out == Lookup(chain, sym)
  {
    var i := 0;
    while i < |chain|
      invariant i <= |chain| && ByText(chain, sym, 0) == ByText(chain, sym, i)
    {
      if Key(sym) in chain[i] { return Some(chain[i][Key(sym)].val); }
      i := i + 1;
    }
    out := None;
  }

  /** Assigns to the innermost binding, or makes one in the locals. */
  method SetSymbol(chain: Chain, sym: Value, v: Value) returns (r: Chain)
    requires |chain| > 0
    ensures r == Assigned(chain, sym, v)
  {
    var i := 0;
    while i < |chain|
      invariant i <= |chain| && ByText(chain, sym, 0) == ByText(chain, sym, i)
    {
      if Key(sym) in chain[i] {
        return chain[i := WithEntry(chain[i], sym, v)];
      }
      i := i + 1;
    }
    r := chain[0 := WithEntry(chain[0], sym, v)];
  }

  function Assigned(chain: Chain, sym: Value, v: Value): (r: Chain)
    requires |chain| > 0
  {
    var k := ByText(chain, sym, 0);
    var i := if k < |chain| then k else 0;
    chain[i := WithEntry(chain[i], sym, v)]
  }

  // ----- the machine's lookups -----

  function SpaceAt(h: Heap, a: nat): Members { if a < |h| && h[a].HashObj? then h[a].members else map[] }

  /** The hashes at some addresses. */
  function ChainOf(h: Heap, scopes: seq<nat>): (c: Chain)
    ensures |c| == |scopes|
  {
    seq(|scopes|, i requires 0 <= i < |scopes| => SpaceAt(h, scopes[i]))
  }

  lemma {:induction false} SameFinds(h: Heap, scopes: seq<nat>, sym: Value, i: nat)
    requires i <= |scopes|
    ensures var c, k := ChainOf(h, scopes), ByText(ChainOf(h, scopes), sym, i);
      FindScope(h, scopes[i..], sym) == if k < |c| then Some(scopes[k]) else None
    ensures var c, k := ChainOf(h, scopes), ByObject(ChainOf(h, scopes), sym, i);
      FindObject(h, scopes[i..], sym) == if k < |c| then Some(scopes[k]) else None
    decreases |scopes| - i
  {
    if i < |scopes| {
      assert scopes[i..][0] == scopes[i] && scopes[i..][1..] == scopes[i + 1..];
      SameFinds(h, scopes, sym, i + 1);
    }
  }

  /** OP_LOCAL answers what the two passes find on the chain of the call. */
  lemma MachineLooksUp(host: Host, h: Heap, env: Env, sym: Value)
    ensures var c := ChainOf(h, [env.locals] + env.scopes);
      Values.GetLocal(host, h, env, sym)
        == match (if host.byText then Lookup(c, sym) else TwoPass(c, sym))
           case Some(v) => Ok(v)
           case None => Err("undefined symbol")
  {
    hide FindScope, FindObject, ByText, ByObject, HashGet;
    var scopes := [env.locals] + env.scopes;
    var c := ChainOf(h, scopes);
    SameFinds(h, scopes, sym, 0);
    assert scopes[0..] == scopes;
    var k, f := ByText(c, sym, 0), ByObject(c, sym, 0);
    if k < |c| { Reads(h, scopes[k], sym); }
    if f < |c| { Reads(h, scopes[f], sym); }
  }

  lemma Reads(h: Heap, a: nat, sym: Value)
    ensures HashGet(h, a, sym) == if Key(sym) in SpaceAt(h, a) then Some(SpaceAt(h, a)[Key(sym)].val) else None
  {
  }

  /** OP_SETSYM assigns on the chain of the call, whose namespaces are different hashes. */
  lemma MachineAssigns(h: Heap, env: Env, sym: Value, v: Value)
    requires env.locals < |h| && h[env.locals].HashObj?
    requires var s := [env.locals] + env.scopes; forall i, j :: 0 <= i < j < |s| ==> s[i] != s[j]
    ensures var s := [env.locals] + env.scopes;
      ChainOf(Values.SetSymbol(h, env, sym, v), s) == Assigned(ChainOf(h, s), sym, v)
  {
    hide WithEntry;
    var scopes := [env.locals] + env.scopes;
    SameFinds(h, scopes, sym, 0);
    assert scopes[0..] == scopes;
    var k := ByText(ChainOf(h, scopes), sym, 0);
    var i := if k < |scopes| then k else 0;
    assert Values.SetSymbol(h, env, sym, v) == HashSet(h, scopes[i], sym, v);
    assert scopes[i] < |h| && h[scopes[i]].HashObj?;
    ChainSet(h, scopes, i, sym, v);
  }

  lemma ChainSet(h: Heap, scopes: seq<nat>, i: nat, sym: Value, v: Value)
    requires i < |scopes| && scopes[i] < |h| && h[scopes[i]].HashObj?
    requires forall j, k :: 0 <= j < k < |scopes| ==> scopes[j] != scopes[k]
    ensures ChainOf(HashSet(h, scopes[i], sym, v), scopes)
            == ChainOf(h, scopes)[i := WithEntry(ChainOf(h, scopes)[i], sym, v)]
  {
    hide WithEntry;
  }

  // ----- what they are for -----

  /** The two passes find the meaning when no binding under another object lies inside the
      first one under the symbol's own: always, if the text is entered under no other. */
  lemma FastPathAgrees(chain: Chain, sym: Value)
    ensures Alone(chain, sym) ==> TwoPass(chain, sym) == Lookup(chain, sym)
    ensures ByObject(chain, sym, 0) == |chain| ==> TwoPass(chain, sym) == Lookup(chain, sym)
    ensures ByText(chain, sym, 0) == ByObject(chain, sym, 0) ==> TwoPass(chain, sym) == Lookup(chain, sym)
  {
    if Alone(chain, sym) {
      SamePlace(chain, sym, 0);
    }
  }

  lemma {:induction false} SamePlace(chain: Chain, sym: Value, i: nat)
    requires Alone(chain, sym) && i <= |chain|
    ensures ByText(chain, sym, i) == ByObject(chain, sym, i)
    decreases |chain| - i
  {
    if i < |chain| && Key(sym) !in chain[i] { SamePlace(chain, sym, i + 1); }
  }

  /** A key entered under another object, as a literal of the same text leaves it, is passed
      over when an outer function has the symbol's own: the lookup then answers the outer value. */
  lemma FastPathCanMiss()
    ensures var sym, lit := Str("x", Interned), Str("x", Pooled(1, 0));
      var chain := [map[Key(sym) := Cell(lit, Num(10.0))], map[Key(sym) := Cell(sym, Num(20.0))]];
      Sound(chain) && Lookup(chain, sym) == Some(Num(10.0)) && TwoPass(chain, sym) == Some(Num(20.0))
  {
    var sym, lit := Str("x", Interned), Str("x", Pooled(1, 0));
    var chain := [map[Key(sym) := Cell(lit, Num(10.0))], map[Key(sym) := Cell(sym, Num(20.0))]];
    assert !HoldsObject(chain[0], sym) && HoldsObject(chain[1], sym);
    assert ByObject(chain, sym, 1) == 1;
    assert ByText(chain, sym, 0) == 0;
  }

  /** For values that tell bindings apart, the two passes differ from the meaning exactly when
      such an inner binding exists. */
  lemma FastPathMissesIff(chain: Chain, sym: Value)
    requires forall i, j :: 0 <= i < j < |chain| && Key(sym) in chain[i] && Key(sym) in chain[j] ==>
      chain[i][Key(sym)].val != chain[j][Key(sym)].val
    ensures TwoPass(chain, sym) != Lookup(chain, sym) <==>
      exists i, j :: 0 <= i < j < |chain| && Key(sym) in chain[i] && !HoldsObject(chain[i], sym)
          && HoldsObject(chain[j], sym)
        && forall h :: 0 <= h < j ==> !HoldsObject(chain[h], sym)
  {
    var k, f := ByText(chain, sym, 0), ByObject(chain, sym, 0);
    if f < |chain| && k < f {
      assert !HoldsObject(chain[k], sym) && Key(sym) in chain[k] && HoldsObject(chain[f], sym);
    }
  }

  /** After an assignment the symbol has the new value and every other symbol its old one,
      and what was entered under its own object only stays so. */
  lemma AssignedIsFound(chain: Chain, sym: Value, v: Value, other: Value)
    requires |chain| > 0 && Key(other) != Key(sym)
    ensures Lookup(Assigned(chain, sym, v), sym) == Some(v)
    ensures Lookup(Assigned(chain, sym, v), other) == Lookup(chain, other)
    ensures Alone(chain, sym) ==> Alone(Assigned(chain, sym, v), sym)
    ensures Alone(chain, sym) ==> TwoPass(Assigned(chain, sym, v), sym) == Some(v)
    ensures Alone(chain, other) ==> TwoPass(Assigned(chain, sym, v), other) == TwoPass(chain, other)
  {
    hide ByText, ByObject, Lookup, TwoPass, Alone, Assigned;
    var r := Assigned(chain, sym, v);
    AssignedIsFirst(chain, sym, v);
    OthersStay(chain, sym, v, other);
    FastPathAgrees(r, sym);
    FastPathAgrees(chain, other);
    FastPathAgrees(r, other);
    AloneStays(chain, sym, v, other);
  }

  lemma AloneStays(chain: Chain, sym: Value, v: Value, other: Value)
    requires |chain| > 0 && Key(other) != Key(sym)
    ensures Alone(chain, sym) ==> Alone(Assigned(chain, sym, v), sym)
    ensures Alone(chain, other) ==> Alone(Assigned(chain, sym, v), other)
  {
  }

  lemma AssignedIsFirst(chain: Chain, sym: Value, v: Value)
    requires |chain| > 0
    ensures Lookup(Assigned(chain, sym, v), sym) == Some(v)
  {
    var k := ByText(chain, sym, 0);
    FirstIs(Assigned(chain, sym, v), sym, if k < |chain| then k else 0);
  }

  lemma OthersStay(chain: Chain, sym: Value, v: Value, other: Value)
    requires |chain| > 0 && Key(other) != Key(sym)
    ensures Lookup(Assigned(chain, sym, v), other) == Lookup(chain, other)
  {
    SameTexts(chain, Assigned(chain, sym, v), other, 0);
  }

  lemma FirstIs(chain: Chain, sym: Value, k: nat)
    requires k < |chain| && Key(sym) in chain[k] && forall j :: 0 <= j < k ==> Key(sym) !in chain[j]
    ensures ByText(chain, sym, 0) == k
  {
  }

  lemma {:induction false} SameTexts(chain: Chain, r: Chain, sym: Value, i: nat)
    requires |chain| == |r| && i <= |chain|
    requires forall j :: 0 <= j < |chain| ==> (Key(sym) in chain[j] <==> Key(sym) in r[j])
    ensures ByText(chain, sym, i) == ByText(r, sym, i)
    decreases |chain| - i
  {
    if i < |chain| { SameTexts(chain, r, sym, i + 1); }
  }
}
