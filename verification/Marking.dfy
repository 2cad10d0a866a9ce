/** The mark phase: a recursive walk over an arbitrary, possibly cyclic, graph of
    objects that marks exactly what the roots reach. */
module Marking {

  /** A reference on a stack or in an object. */
  datatype Ref = Number | Nil | Ptr(obj: Obj)

  /** What an object holds, as far as the collector looks. A hash is its index
      table: a cell is empty or deleted, or leads to a key and a value. */
  datatype Content =
    | StrData(len: nat)
    | VecData(rec: seq<Ref>)
    | HashData(cells: seq<Cell>)
    | CodeData(srcFile: Ref, constants: seq<Ref>)
    | FuncData(code: Ref, namespace: Ref, next: Ref)
    | CCodeData
    | GhostData(live: bool)

  datatype Cell = Unused | Used(key: Ref, val: Ref)

  class Obj {
    var mark: nat
    var data: Content

    constructor (d: Content)
      ensures mark == 0 && data == d
    {
      mark, data := 0, d;
    }
  }

  function CellRefs(c: Cell): seq<Ref> {
    match c case Unused => [] case Used(k, v) => [k, v]
  }

  function CellsRefs(cells: seq<Cell>): seq<Ref> {
    if cells == [] then [] else CellRefs(cells[0]) + CellsRefs(cells[1..])
  }

  /** The references the collector follows from an object. */
  function Refs(d: Content): seq<Ref> {
    match d
    case VecData(rec) => rec
    case HashData(cells) => CellsRefs(cells)
    case CodeData(src, cs) => [src] + cs
    case FuncData(c, n, x) => [c, n, x]
    case _ => []
  }

  /** Every object of the sequence of references is marked. */
  ghost predicate AllMarked(rs: seq<Ref>)
    reads set r | r in rs && r.Ptr? :: r.obj
  {
    forall r :: r in rs && r.Ptr? ==> r.obj.mark == 1
  }

  ghost predicate AllIn(rs: seq<Ref>, s: set<Obj>) {
    forall r :: r in rs && r.Ptr? ==> r.obj in s
  }

  /** Closed under following references. */
  ghost predicate Closed(s: set<Obj>)
    reads s
  {
    forall o :: o in s ==> AllIn(Refs(o.data), s)
  }

  ghost predicate Marks01(s: set<Obj>)
    reads s
  {
    forall o :: o in s ==> o.mark == 0 || o.mark == 1
  }

  /** A marked object has marked successors, unless it is still being walked. */
  ghost predicate Walked(s: set<Obj>, open: set<Obj>)
    requires Closed(s)
    reads s
  {
    forall o, r :: o in s && o.mark == 1 && o !in open && r in Refs(o.data) && r.Ptr? ==> r.obj.mark == 1
  }

  /** Only what lies in `c` is marked. */
  ghost predicate MarkedWithin(s: set<Obj>, c: set<Obj>)
    reads s
  {
    forall o :: o in s && o.mark == 1 ==> o in c
  }

  /** Marks grow, and nothing else changes. */
  twostate predicate OnlyMarks(s: set<Obj>)
    reads s
  {
    forall o :: o in s ==> o.data == old(o.data) && (old(o.mark) == 1 ==> o.mark == 1)
  }

  /** The state of a walk: `heap` is everything, `open` is being walked, and `bound`
      is any closed set with the roots in it. */
  ghost predicate Walk(heap: set<Obj>, open: set<Obj>, bound: set<Obj>)
    reads heap, bound
  {
    && Closed(heap) && Marks01(heap) && Walked(heap, open)
    && open <= heap && (forall o :: o in open ==> o.mark == 1)
    && bound <= heap && Closed(bound) && MarkedWithin(heap, bound)
  }

  /** Marks what a reference leads to, recursively. */
  method Mark(r: Ref, ghost heap: set<Obj>, ghost open: set<Obj>, ghost bound: set<Obj>)
    requires Walk(heap, open, bound) && AllIn([r], heap) && AllIn([r], bound)
    modifies heap
    ensures OnlyMarks(heap) && Walk(heap, open, bound) && (r.Ptr? ==> r.obj.mark == 1)
    decreases heap - open, 3
  {
    if !r.Ptr? || r.obj.mark == 1 { return; }
    assert r in [r];
    var o := r.obj;
    o.mark := 1;
    ghost var inner := open + {o};
    assert heap - inner < heap - open;
    MarkContent(o.data, heap, inner, bound);
    assert Walked(heap, open);
  }

  method MarkContent(d: Content, ghost heap: set<Obj>, ghost open: set<Obj>, ghost bound: set<Obj>)
    requires Walk(heap, open, bound) && AllIn(Refs(d), heap) && AllIn(Refs(d), bound)
    modifies heap
    ensures OnlyMarks(heap) && Walk(heap, open, bound) && AllMarked(Refs(d))
    decreases heap - open, 6
  {
    hide Walk, CellsRefs;
    match d {
      case VecData(rec) => MarkAll(rec, heap, open, bound);
      case HashData(cells) => MarkHash(cells, heap, open, bound);
      case CodeData(src, cs) =>
        assert Refs(d) == [src] + cs;
        Mark(src, heap, open, bound);
        MarkAll(cs, heap, open, bound);
      case FuncData(c, n, x) =>
        assert Refs(d) == [c, n, x];
        Mark(c, heap, open, bound);
        Mark(n, heap, open, bound);
        Mark(x, heap, open, bound);
      case _ =>
    }
  }

  method MarkAll(rs: seq<Ref>, ghost heap: set<Obj>, ghost open: set<Obj>, ghost bound: set<Obj>)
    requires Walk(heap, open, bound) && AllIn(rs, heap) && AllIn(rs, bound)
    modifies heap
    ensures OnlyMarks(heap) && Walk(heap, open, bound) && AllMarked(rs)
    decreases heap - open, 4
  {
    hide Walk;
    for i := 0 to |rs|
      invariant OnlyMarks(heap) && Walk(heap, open, bound) && AllMarked(rs[..i])
    {
      assert rs[i] in rs;
      Mark(rs[i], heap, open, bound);
      assert rs[..i + 1] == rs[..i] + [rs[i]];
    }
    assert rs[..|rs|] == rs;
  }

  /** Unused cells are passed over. */
  method MarkHash(cells: seq<Cell>, ghost heap: set<Obj>, ghost open: set<Obj>, ghost bound: set<Obj>)
    requires Walk(heap, open, bound) && AllIn(CellsRefs(cells), heap) && AllIn(CellsRefs(cells), bound)
    modifies heap
    ensures OnlyMarks(heap) && Walk(heap, open, bound) && AllMarked(CellsRefs(cells))
    decreases heap - open, 5
  {
    hide Walk;
    for i := 0 to |cells|
      invariant OnlyMarks(heap) && Walk(heap, open, bound)
      invariant AllIn(CellsRefs(cells[..i]), heap) && AllMarked(CellsRefs(cells[..i]))
    {
      CellAt(cells, i);
      assert AllIn(CellRefs(cells[i]), heap) && AllIn(CellRefs(cells[i]), bound);
      MarkCell(cells[i], heap, open, bound);
    }
    assert cells[..|cells|] == cells;
  }

  method MarkCell(c: Cell, ghost heap: set<Obj>, ghost open: set<Obj>, ghost bound: set<Obj>)
    requires Walk(heap, open, bound) && AllIn(CellRefs(c), heap) && AllIn(CellRefs(c), bound)
    modifies heap
    ensures OnlyMarks(heap) && Walk(heap, open, bound) && AllMarked(CellRefs(c))
    decreases heap - open, 4
  {
    hide Walk;
    if c.Used? {
      assert CellRefs(c) == [c.key, c.val];
      Mark(c.key, heap, open, bound);
      Mark(c.val, heap, open, bound);
    }
  }

  lemma {:induction false} CellAt(cells: seq<Cell>, i: nat)
    requires i < |cells|
    ensures CellsRefs(cells[..i + 1]) == CellsRefs(cells[..i]) + CellRefs(cells[i])
    ensures forall r :: r in CellRefs(cells[i]) ==> r in CellsRefs(cells)
  {
    if i == 0 {
      assert cells[..1] == [cells[0]] && cells[..0] == [];
    } else {
      CellAt(cells[1..], i - 1);
      assert cells[..i + 1][1..] == cells[1..][..i] && cells[..i][1..] == cells[1..][..i - 1];
    }
  }

  // ----- reachability -----

  /** The successors of every object, as the marking found them. */
  type Graph = map<Obj, seq<Ref>>

  ghost function GraphOf(s: set<Obj>): Graph
    reads s
  {
    map o | o in s :: Refs(o.data)
  }

  /** What is reached from the roots in at most `n` steps. */
  ghost function Reached(g: Graph, roots: seq<Ref>, n: nat): set<Obj> {
    if n == 0 then set r | r in roots && r.Ptr? :: r.obj
    else
      var s := Reached(g, roots, n - 1);
      s + set o, r | o in g.Keys && o in s && r in g[o] && r.Ptr? :: r.obj
  }

  ghost predicate Reachable(g: Graph, roots: seq<Ref>, o: Obj) {
    exists n: nat :: o in Reached(g, roots, n)
  }

  lemma {:induction false} ReachedInside(g: Graph, roots: seq<Ref>, n: nat, s: set<Obj>)
    requires AllIn(roots, s) && (forall o :: o in s && o in g.Keys ==> AllIn(g[o], s))
    ensures Reached(g, roots, n) <= s
  {
    if n > 0 {
      ReachedInside(g, roots, n - 1, s);
    }
  }

  /** The reachable objects of a heap. */
  ghost function Live(heap: set<Obj>, roots: seq<Ref>): (live: set<Obj>)
    reads heap
  {
    set o | o in heap && Reachable(GraphOf(heap), roots, o)
  }

  lemma LiveIsClosed(heap: set<Obj>, roots: seq<Ref>)
    requires Closed(heap) && AllIn(roots, heap)
    ensures Closed(Live(heap, roots)) && AllIn(roots, Live(heap, roots))
  {
    var g := GraphOf(heap);
    forall r | r in roots && r.Ptr?
      ensures r.obj in Live(heap, roots)
    {
      assert r.obj in Reached(g, roots, 0);
    }
    forall o, r | o in Live(heap, roots) && r in Refs(o.data) && r.Ptr?
      ensures r.obj in Live(heap, roots)
    {
      var n: nat :| o in Reached(g, roots, n);
      assert r in g[o];
      assert r.obj in Reached(g, roots, n + 1);
    }
  }

  // ----- field by field -----

  ghost function Contents(heap: set<Obj>): map<Obj, Content>
    reads heap
  {
    map o | o in heap :: o.data
  }

  /** One of the fields of an object with this content holds `r`: a function has its code, its namespace and
      the closure around it, a code object its source file and its constants, a vector its elements, and a hash
      the key and the value of every cell in use. */
  ghost predicate InField(d: Content, r: Ref) {
    match d
    case FuncData(code, namespace, next) => r == code || r == namespace || r == next
    case CodeData(srcFile, constants) => r == srcFile || exists i :: 0 <= i < |constants| && constants[i] == r
    case VecData(rec) => exists i :: 0 <= i < |rec| && rec[i] == r
    case HashData(cells) => exists i :: 0 <= i < |cells| && cells[i].Used? && (cells[i].key == r || cells[i].val == r)
    case _ => false
  }

  /** What is a root, or in a field of what is held by at most `n` steps from the roots. */
  ghost predicate HeldBy(was: map<Obj, Content>, roots: seq<Ref>, o: Obj, n: nat) {
    if n == 0 then Ptr(o) in roots
    else HeldBy(was, roots, o, n - 1) || exists q :: q in was && HeldBy(was, roots, q, n - 1) && InField(was[q], Ptr(o))
  }

  ghost predicate Held(was: map<Obj, Content>, roots: seq<Ref>, o: Obj) {
    exists n: nat :: HeldBy(was, roots, o, n)
  }

  lemma {:induction false} CellFields(cells: seq<Cell>, r: Ref)
    ensures r in CellsRefs(cells) <==> InField(HashData(cells), r)
  {
    if cells != [] {
      CellFields(cells[1..], r);
      assert forall i :: 0 < i < |cells| ==> cells[i] == cells[1..][i - 1];
      if InField(HashData(cells[1..]), r) {
        var i :| 0 <= i < |cells[1..]| && cells[1..][i].Used? && (cells[1..][i].key == r || cells[1..][i].val == r);
        assert cells[i + 1].Used? && (cells[i + 1].key == r || cells[i + 1].val == r);
      }
    }
  }

  /** The references that the collector follows are those in the fields. */
  lemma FollowsFields(d: Content, r: Ref)
    ensures r in Refs(d) <==> InField(d, r)
  {
    if d.HashData? {
      CellFields(d.cells, r);
    }
  }

  lemma {:induction false} ReachedIsHeld(heap: set<Obj>, roots: seq<Ref>, o: Obj, n: nat)
    requires Closed(heap) && AllIn(roots, heap)
    ensures o in Reached(GraphOf(heap), roots, n) <==> HeldBy(Contents(heap), roots, o, n)
  {
    if n > 0 {
      forall q | q in heap
        ensures q in Reached(GraphOf(heap), roots, n - 1) <==> HeldBy(Contents(heap), roots, q, n - 1)
        ensures Ptr(o) in Refs(q.data) <==> InField(q.data, Ptr(o))
      {
        ReachedIsHeld(heap, roots, q, n - 1);
        FollowsFields(q.data, Ptr(o));
      }
      ReachedIsHeld(heap, roots, o, n - 1);
    }
  }

  /** An object is live when a chain of fields leads to it from a root. */
  lemma LiveIsHeld(heap: set<Obj>, roots: seq<Ref>, o: Obj)
    requires Closed(heap) && AllIn(roots, heap) && o in heap
    ensures o in Live(heap, roots) <==> Held(Contents(heap), roots, o)
  {
    hide Reached, HeldBy;
    var g := GraphOf(heap);
    if n: nat :| o in Reached(g, roots, n) {
      ReachedIsHeld(heap, roots, o, n);
    }
    if n: nat :| HeldBy(Contents(heap), roots, o, n) {
      ReachedIsHeld(heap, roots, o, n);
    }
  }

  method MarkLive(roots: seq<Ref>, ghost heap: set<Obj>)
    requires Closed(heap) && AllIn(roots, heap) && (forall o :: o in heap ==> o.mark == 0)
    modifies heap
    ensures forall o :: o in heap ==> o.data == old(o.data) && (o.mark == 0 || o.mark == 1)
    ensures forall o :: o in heap ==> (o.mark == 1 <==> o in old(Live(heap, roots)))
  {
    ghost var live := Live(heap, roots);
    ghost var g := GraphOf(heap);
    LiveIsClosed(heap, roots);
    MarkAll(roots, heap, {}, live);
    ghost var marked := set o | o in heap && o.mark == 1;
    assert GraphOf(heap) == g;
    forall o | o in live
      ensures o.mark == 1
    {
      var n: nat :| o in Reached(g, roots, n);
      ReachedInside(g, roots, n, marked);
    }
  }

  /** After marking, with marked the same as live. */
  lemma FieldsOfMarked(roots: seq<Ref>, heap: set<Obj>)
    requires Closed(heap) && AllIn(roots, heap) && forall o :: o in heap ==> (o.mark == 1 <==> o in Live(heap, roots))
    ensures forall o :: o in heap ==> (o.mark == 1 <==> Held(Contents(heap), roots, o))
    ensures forall o, q :: o in heap && o.mark == 1 && InField(o.data, Ptr(q)) ==> q in heap && q.mark == 1
  {
    hide Held, InField, Refs, Live;
    forall o | o in heap
      ensures o in Live(heap, roots) <==> Held(Contents(heap), roots, o)
    {
      LiveIsHeld(heap, roots, o);
    }
    LiveIsClosed(heap, roots);
    forall o, q | o in heap && o.mark == 1 && InField(o.data, Ptr(q))
      ensures q in heap && q.mark == 1
    {
      FollowsFields(o.data, Ptr(q));
    }
  }

  /** The whole mark phase, from clean marks: marked is exactly reachable, which is what a chain of
      fields leads to from a root; so the fields of a marked object are marked. */
  method MarkRoots(roots: seq<Ref>, ghost heap: set<Obj>)
    requires Closed(heap) && AllIn(roots, heap) && (forall o :: o in heap ==> o.mark == 0)
    modifies heap
    ensures forall o :: o in heap ==> o.data == old(o.data) && (o.mark == 0 || o.mark == 1)
    ensures forall o :: o in heap ==> (o.mark == 1 <==> o in old(Live(heap, roots)))
    ensures forall o :: o in heap ==> (o.mark == 1 <==> Held(old(Contents(heap)), roots, o))
    ensures forall o, q :: o in heap && o.mark == 1 && InField(o.data, Ptr(q)) ==> q in heap && q.mark == 1
  {
    ghost var was, g := Contents(heap), GraphOf(heap);
    MarkLive(roots, heap);
    assert Contents(heap) == was && GraphOf(heap) == g;
    FieldsOfMarked(roots, heap);
  }
}
