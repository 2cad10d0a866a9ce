/** Which member of which object a name finds. */
module Inheritance {
  import opened Basics
  import opened Values

  /** The value that the object at an address has under a name. */
  function Own(h: Heap, a: nat, x: string): Option<Value> {
    if a < |h| && h[a].HashObj? && Str(x, Interned) in h[a].members then Some(h[a].members[Str(x, Interned)].val)
    else None
  }

  /** The parents of an object, when it has any. */
  function Parents(h: Heap, v: Value): seq<Value>
    requires v.Hash?
  {
    match Own(h, v.addr, "parents")
    case Some(ps) => if ps.Vec? && ps.addr < |h| && h[ps.addr].VecObj? then h[ps.addr].elems else []
    case None => []
  }

  /** An object whose ancestors are objects too, fewer than `n` generations of them. */
  ghost predicate Family(h: Heap, v: Value, n: nat)
    decreases n
  {
    && n > 0 && v.Hash? && v.addr < |h| && h[v.addr].HashObj?
    && (Own(h, v.addr, "parents").Some? ==>
          var ps := Own(h, v.addr, "parents").value; ps.Vec? && ps.addr < |h| && h[ps.addr].VecObj?)
    && forall i :: 0 <= i < |Parents(h, v)| ==> Family(h, Parents(h, v)[i], n - 1)
  }

  /** The order in which a member is looked for: the object itself, then the whole family of its first
      parent, then that of the second, and so on. */
  ghost function Line(h: Heap, v: Value, n: nat): seq<nat>
    requires Family(h, v, n)
    decreases n, 0
  {
    [v.addr] + Lines(h, Parents(h, v), n - 1)
  }

  ghost function Lines(h: Heap, vs: seq<Value>, n: nat): seq<nat>
    requires forall i :: 0 <= i < |vs| ==> Family(h, vs[i], n)
    decreases n, 1, |vs|
  {
    if vs == [] then [] else Line(h, vs[0], n) + Lines(h, vs[1..], n)
  }

  /** The value in the first object of a row that has the name. */
  ghost predicate FirstHas(h: Heap, row: seq<nat>, x: string, v: Value) {
    exists k :: 0 <= k < |row| && Own(h, row[k], x) == Some(v) && forall j :: 0 <= j < k ==> Own(h, row[j], x).None?
  }

  ghost predicate NoneHas(h: Heap, row: seq<nat>, x: string) {
    forall k :: 0 <= k < |row| ==> Own(h, row[k], x).None?
  }

  lemma InFirst(h: Heap, a: seq<nat>, b: seq<nat>, x: string, v: Value)
    requires FirstHas(h, a, x, v)
    ensures FirstHas(h, a + b, x, v)
  {
    var k :| 0 <= k < |a| && Own(h, a[k], x) == Some(v) && forall j :: 0 <= j < k ==> Own(h, a[j], x).None?;
    assert (a + b)[k] == a[k] && forall j :: 0 <= j < k ==> (a + b)[j] == a[j];
  }

  lemma InSecond(h: Heap, a: seq<nat>, b: seq<nat>, x: string, v: Value)
    requires NoneHas(h, a, x) && FirstHas(h, b, x, v)
    ensures FirstHas(h, a + b, x, v)
  {
    var k :| 0 <= k < |b| && Own(h, b[k], x) == Some(v) && forall j :: 0 <= j < k ==> Own(h, b[j], x).None?;
    assert Own(h, (a + b)[|a| + k], x) == Some(v);
    forall j | 0 <= j < |a| + k ensures Own(h, (a + b)[j], x).None? {
      if j < |a| {
        assert (a + b)[j] == a[j];
      } else {
        assert (a + b)[j] == b[j - |a|];
      }
    }
  }

  /** The search through an object and its parents finds the first in line. */
  lemma {:induction false} FindsFirst(h: Heap, v: Value, x: string, n: nat)
    requires Family(h, v, n)
    ensures var r := FindMember(h, v, Str(x, Interned), n);
      !r.Bad? && (r.Found? ==> FirstHas(h, Line(h, v, n), x, r.v)) && (r.Missing? ==> NoneHas(h, Line(h, v, n), x))
    decreases n, 0
  {
    var r := FindMember(h, v, Str(x, Interned), n);
    match Own(h, v.addr, x)
    case Some(own) =>
      assert Line(h, v, n)[0] == v.addr;
      assert r == Found(own);
    case None =>
      var row := Lines(h, Parents(h, v), n - 1);
      ParentsInOrder(h, Parents(h, v), x, n - 1);
      assert NoneHas(h, [v.addr], x);
      if r.Found? {
        InSecond(h, [v.addr], row, x, r.v);
      }
  }

  lemma {:induction false} ParentsInOrder(h: Heap, vs: seq<Value>, x: string, n: nat)
    requires forall i :: 0 <= i < |vs| ==> Family(h, vs[i], n)
    ensures var r := FindInParents(h, vs, Str(x, Interned), n);
      !r.Bad? && (r.Found? ==> FirstHas(h, Lines(h, vs, n), x, r.v)) && (r.Missing? ==> NoneHas(h, Lines(h, vs, n), x))
    decreases n, 1, |vs|
  {
    if vs != [] {
      FindsFirst(h, vs[0], x, n);
      ParentsInOrder(h, vs[1..], x, n);
      var r := FindInParents(h, vs, Str(x, Interned), n);
      if FindMember(h, vs[0], Str(x, Interned), n).Found? {
        InFirst(h, Line(h, vs[0], n), Lines(h, vs[1..], n), x, r.v);
      } else if r.Found? {
        InSecond(h, Line(h, vs[0], n), Lines(h, vs[1..], n), x, r.v);
      }
    }
  }

  /** A member is the one of the first object in line that has it, at most 64 generations up, or missing. */
  lemma MemberOfFamily(h: Heap, v: Value, x: string)
    requires Family(h, v, 64)
    ensures forall u :: GetMember(h, v, x) == Ok(u) <==> FirstHas(h, Line(h, v, 64), x, u)
    ensures GetMember(h, v, x).Err? <==> NoneHas(h, Line(h, v, 64), x)
  {
    FindsFirst(h, v, x, 64);
    var row := Line(h, v, 64);
    forall u, w | FirstHas(h, row, x, u) && FirstHas(h, row, x, w) ensures u == w {
      FirstIsOne(h, row, x, u, w);
    }
    forall u | FirstHas(h, row, x, u) ensures !NoneHas(h, row, x) {
    }
  }

  lemma FirstIsOne(h: Heap, row: seq<nat>, x: string, u: Value, w: Value)
    requires FirstHas(h, row, x, u) && FirstHas(h, row, x, w)
    ensures u == w
  {
    var k :| 0 <= k < |row| && Own(h, row[k], x) == Some(u) && forall j :: 0 <= j < k ==> Own(h, row[j], x).None?;
    var l :| 0 <= l < |row| && Own(h, row[l], x) == Some(w) && forall j :: 0 <= j < l ==> Own(h, row[j], x).None?;
    assert k == l;
  }

  /** An object that is its own first parent is followed until the search gives up. */
  lemma {:induction false} OwnParentIsEndless(h: Heap, v: Value, x: string, n: nat)
    requires v.Hash? && v.addr < |h| && h[v.addr].HashObj? && Own(h, v.addr, x).None?
    requires Parents(h, v) != [] && Parents(h, v)[0] == v
    ensures FindMember(h, v, Str(x, Interned), n) == Bad("too many parents")
  {
    if n > 0 {
      OwnParentIsEndless(h, v, x, n - 1);
    }
  }

  /** What has no members, and what has no parents to look in. */
  lemma NoMembers(h: Heap, v: Value, x: string)
    ensures !(v.Hash? && v.addr < |h| && h[v.addr].HashObj?) ==>
              GetMember(h, v, x) == Err("non-objects have no members")
    ensures v.Hash? && v.addr < |h| && h[v.addr].HashObj? && Own(h, v.addr, x).None? ==>
              var ps := Own(h, v.addr, "parents");
              && (ps.None? ==> GetMember(h, v, x) == Err("No such member"))
              && (ps.Some? && !(ps.value.Vec? && ps.value.addr < |h| && h[ps.value.addr].VecObj?) ==>
                    GetMember(h, v, x) == Err("object \"parents\" field not vector"))
  {
  }

  /** An assignment to a member is to the object's own, whatever its parents have. */
  lemma SetsOwn(h: Heap, v: Value, x: string, id: Ident, u: Value)
    ensures SetMember(h, v, Str(x, id), u).Ok? <==> v.Hash? && v.addr < |h| && h[v.addr].HashObj?
    ensures SetMember(h, v, Str(x, id), u).Ok? ==>
              var g := SetMember(h, v, Str(x, id), u).value;
              && |g| == |h| && Own(g, v.addr, x) == Some(u) && GetMember(g, v, x) == Ok(u)
              && (forall a :: 0 <= a < |h| && a != v.addr ==> g[a] == h[a])
              && (forall y :: y != x ==> Own(g, v.addr, y) == Own(h, v.addr, y))
  {
  }
}
