/** The collector over all pools: a collection marks from the roots and sweeps every pool,
    and an allocation collects until it can hand out objects. */
module Collection {
  import opened Marking
  import opened Pools

  /** A pool that the sweep has still to visit; `owned`, `live` and `was` describe the heap when marked. */
  ghost predicate Todo(p: Pool, owned: set<Obj>, live: set<Obj>, was: map<Obj, Content>)
    reads p, p.free0, p.objs
  {
    && p.Valid() && p.objs == owned && owned <= was.Keys
    && forall o :: o in owned ==> o.data == was[o] && (o.mark == 0 || o.mark == 1) && (o.mark == 1 <==> o in live)
  }

  /** A pool that the sweep has visited: it kept the live objects as they were, cleaned
      the others, and every mark is clear. */
  ghost predicate Swept(p: Pool, owned: set<Obj>, live: set<Obj>, was: map<Obj, Content>)
    reads p, p.free0, p.objs
  {
    && p.Valid() && p.HasRoom() && p.slices == []
    && owned <= p.objs && owned <= was.Keys && p.kept == owned * live
    && (forall o :: o in p.objs ==> o.mark == 0)
    && (forall o :: o in owned ==> o.data == if o in live then was[o] else Cleaned(was[o]))
    && (forall o :: o in p.objs && o !in owned ==> o.data == Blank(p.kind))
  }

  lemma BlankRefersNowhere(k: Kind)
    ensures AllIn(Refs(Blank(k)), {})
  {
  }

  /** A freed object holds nothing any more, but for the stale fields of a function and the source file of a
      code object; and a new one nothing at all. */
  ghost predicate LetGo(d: Content, e: Content) {
    && (e.StrData? <==> d.StrData?) && (e.VecData? <==> d.VecData?) && (e.HashData? <==> d.HashData?)
    && (e.CodeData? <==> d.CodeData?) && (e.FuncData? <==> d.FuncData?) && (e.GhostData? <==> d.GhostData?)
    && (e.StrData? ==> e.len == 0) && (e.VecData? ==> e.rec == []) && (e.HashData? ==> e.cells == [])
    && (e.FuncData? ==> e == d) && (e.CodeData? ==> e.srcFile == d.srcFile && e.constants == [])
    && (e.GhostData? ==> !e.live)
  }

  lemma CleanedLetsGo(d: Content)
    ensures LetGo(d, Cleaned(d))
    ensures forall r :: InField(Cleaned(d), r) <==> (d.FuncData? && InField(d, r)) || (d.CodeData? && d.srcFile == r)
  {
  }

  lemma BlankHoldsNothing(k: Kind, o: Obj)
    ensures !InField(Blank(k), Ptr(o))
  {
  }

  lemma CleanedRefersLess(d: Content)
    ensures forall r :: r in Refs(Cleaned(d)) ==> r in Refs(d)
  {
  }

  method SweepPool(p: Pool, nThreads: nat, ghost owned: set<Obj>, ghost live: set<Obj>, ghost was: map<Obj, Content>)
    returns (credit: nat)
    requires Todo(p, owned, live, was)
    modifies p, p.free0, p.objs
    ensures Swept(p, owned, live, was) && credit == |owned| / 2
    ensures (p.free0 == old(p.free0) || fresh(p.free0)) && fresh(p.objs - owned)
  {
    DistinctCount(owned, Flatten(p.blocks));
    credit := p.Reap(nThreads);
  }

  /** Half the objects of every pool. */
  ghost function Credit(owned: seq<set<Obj>>): (c: nat) {
    if owned == [] then 0 else Credit(owned[..|owned| - 1]) + |owned[|owned| - 1]| / 2
  }

  /** The pools own everything the map describes, and it is closed and holds the roots. */
  ghost predicate Complete(owned: seq<set<Obj>>, was: map<Obj, Content>, roots: seq<Ref>) {
    && (forall o :: o in was ==> AllIn(Refs(was[o]), was.Keys) && exists j :: 0 <= j < |owned| && o in owned[j])
    && AllIn(roots, was.Keys)
  }

  lemma SweptObject(p: Pool, owned: set<Obj>, live: set<Obj>, was: map<Obj, Content>, o: Obj)
    requires Swept(p, owned, live, was) && o in p.objs
    requires forall x :: x in was ==> AllIn(Refs(was[x]), was.Keys)
    ensures o.mark == 0 && AllIn(Refs(o.data), was.Keys)
  {
    if o in owned {
      CleanedRefersLess(was[o]);
    }
  }

  /** A pool of a kind as its constructor leaves it. */
  ghost predicate StartsEmpty(p: Pool, k: Kind)
    reads p, p.free0
  {
    p.Valid() && p.HasRoom() && p.kind == k && p.blocks == [] && p.objs == {}
  }

  class Collector {
    const pools: seq<Pool>
    var allocCount: int
    var nThreads: nat
    var needGC: bool

    /** Every object of every pool. */
    ghost function Heap(): set<Obj>
      reads pools
    {
      set i, o | 0 <= i < |pools| && o in pools[i].objs :: o
    }

    ghost function Buffers(): set<object>
      reads pools
    {
      set i | 0 <= i < |pools| :: pools[i].free0
    }

    /** The pools share neither buffers nor objects. */
    ghost predicate Separate()
      reads pools
    {
      forall i, j :: 0 <= i < j < |pools| ==>
        pools[i] != pools[j] && pools[i].free0 != pools[j].free0 && pools[i].objs !! pools[j].objs
    }

    ghost predicate Valid()
      reads pools, Buffers()
    {
      Separate() && forall i :: 0 <= i < |pools| ==> pools[i].Valid()
    }

    ghost predicate Unmarked()
      reads pools, Heap()
    {
      forall o :: o in Heap() ==> o.mark == 0
    }

    /** The sweep has come to pool `i`. */
    ghost predicate Sweeping(i: nat, owned: seq<set<Obj>>, live: set<Obj>, was: map<Obj, Content>)
      reads pools, Buffers(), Heap()
    {
      && i <= |pools| == |owned| && Separate()
      && (forall j :: 0 <= j < i ==> Swept(pools[j], owned[j], live, was))
      && (forall j :: i <= j < |pools| ==> Todo(pools[j], owned[j], live, was))
    }

    /** When the interpreter starts: the seven pools, without objects. */
    constructor ()
      ensures Ready([]) && Heap() == {} && fresh(Buffers()) && forall p :: p in pools ==> fresh(p)
      ensures |pools| == |KINDS| && forall i :: 0 <= i < |pools| ==> pools[i].kind == KINDS[i]
      ensures allocCount == 256 && nThreads == 0 && !needGC
      ensures forall i :: 0 <= i < |pools| ==> !Blocked(i)
    {
      allocCount, nThreads, needGC := 256, 0, false;
      var made: seq<Pool> := [];
      for i := 0 to |KINDS|
        invariant |made| == i && forall j :: 0 <= j < i ==> StartsEmpty(made[j], KINDS[j])
        invariant forall j :: 0 <= j < i ==> fresh(made[j]) && fresh(made[j].free0)
        invariant forall j, k :: 0 <= j < k < i ==> made[j] != made[k] && made[j].free0 != made[k].free0
      {
        var p := new Pool(KINDS[i], 0);
        made := made + [p];
      }
      pools := made;
    }

    lemma OthersApart(i: nat)
      requires i < |pools| && Separate()
      ensures forall j :: 0 <= j < |pools| && j != i ==>
        pools[j] != pools[i] && pools[j].free0 != pools[i].free0 && pools[j].objs !! pools[i].objs
    {
    }

    /** A pool that takes new objects or a new buffer stays apart from the others. */
    twostate lemma StillSeparate(i: nat)
      requires i < |pools| && old(Separate())
      requires forall j :: 0 <= j < |pools| && j != i ==>
        pools[j].free0 == old(pools[j].free0) && pools[j].objs == old(pools[j].objs)
      requires pools[i].free0 == old(pools[i].free0) || fresh(pools[i].free0)
      requires fresh(pools[i].objs - old(pools[i].objs))
      ensures Separate()
    {
    }

    method SweepAt(i: nat, ghost owned: seq<set<Obj>>, ghost live: set<Obj>, ghost was: map<Obj, Content>)
      requires i < |pools| == |owned| && Sweeping(i, owned, live, was)
      modifies this`allocCount, pools[i], pools[i].free0, pools[i].objs
      ensures Sweeping(i + 1, owned, live, was)
      ensures allocCount == old(allocCount) + |owned[i]| / 2
      ensures pools[i].free0 == old(pools[i].free0) || fresh(pools[i].free0)
      ensures fresh(pools[i].objs - old(pools[i].objs))
    {
      hide Todo, Swept;
      TodoOwns(pools[i], owned[i], live, was);
      OthersApart(i);
      hide Separate;
      var credit := SweepPool(pools[i], nThreads, owned[i], live, was);
      StillSeparate(i);
      allocCount := allocCount + credit;
    }

    method Sweep(ghost owned: seq<set<Obj>>, ghost live: set<Obj>, ghost was: map<Obj, Content>)
      requires |owned| == |pools| && Sweeping(0, owned, live, was)
      modifies this`allocCount, pools, Buffers(), Heap()
      ensures Sweeping(|pools|, owned, live, was)
      ensures allocCount == old(allocCount) + Credit(owned)
      ensures forall j :: 0 <= j < |pools| ==> pools[j].free0 == old(pools[j].free0) || fresh(pools[j].free0)
    {
      hide Sweeping;
      for i := 0 to |pools|
        invariant Sweeping(i, owned, live, was)
        invariant allocCount == old(allocCount) + Credit(owned[..i])
        invariant forall j :: 0 <= j < |pools| ==> pools[j].free0 == old(pools[j].free0) || fresh(pools[j].free0)
        invariant forall j :: 0 <= j < |pools| ==> fresh(pools[j].objs - old(pools[j].objs))
      {
        SweepAt(i, owned, live, was);
        assert owned[..i + 1][..i] == owned[..i];
      }
      assert owned[..|pools|] == owned;
    }

    ghost function Owned(): (owned: seq<set<Obj>>)
      reads pools
      ensures |owned| == |pools|
    {
      seq(|pools|, i requires 0 <= i < |pools| reads pools => pools[i].objs)
    }

    /** After marking, the sweep can start. */
    lemma MarkedIsSweeping(live: set<Obj>, was: map<Obj, Content>)
      requires Valid() && was.Keys == Heap()
      requires forall o :: o in Heap() ==>
        o.data == was[o] && (o.mark == 0 || o.mark == 1) && (o.mark == 1 <==> o in live)
      ensures Sweeping(0, Owned(), live, was)
    {
      forall j | 0 <= j < |pools|
        ensures Todo(pools[j], Owned()[j], live, was)
      {
        assert forall o :: o in pools[j].objs ==> o in Heap();
      }
    }

    /** What a collection leaves: every pool keeps exactly its live objects, untouched, has room and clear marks. */
    ghost predicate Collected(owned: seq<set<Obj>>, live: set<Obj>, was: map<Obj, Content>)
      reads this, pools, Buffers(), Heap()
    {
      && Sweeping(|pools|, owned, live, was) && !needGC && allocCount == Credit(owned)
    }

    /** What a collection starts from: clear marks, and a heap that holds the roots and whatever
        its objects refer to. */
    ghost predicate Ready(roots: seq<Ref>)
      reads pools, Buffers(), Heap()
    {
      Valid() && Unmarked() && Closed(Heap()) && AllIn(roots, Heap())
    }

    /** A collection leaves the heap ready for the next one. */
    lemma CollectedIsReady(roots: seq<Ref>, owned: seq<set<Obj>>, live: set<Obj>, was: map<Obj, Content>)
      requires Sweeping(|pools|, owned, live, was) && Complete(owned, was, roots)
      ensures Ready(roots)
    {
      forall j | 0 <= j < |pools|
        ensures pools[j].Valid()
      {
        assert Swept(pools[j], owned[j], live, was);
      }
      assert was.Keys <= Heap() by {
        CompleteIsKept(roots, owned, live, was);
      }
      forall o | o in Heap()
        ensures o.mark == 0 && AllIn(Refs(o.data), Heap())
      {
        var j :| 0 <= j < |pools| && o in pools[j].objs;
        SweptObject(pools[j], owned[j], live, was, o);
      }
      hide Swept, Todo, Separate;
    }

    lemma CompleteIsKept(roots: seq<Ref>, owned: seq<set<Obj>>, live: set<Obj>, was: map<Obj, Content>)
      requires Sweeping(|pools|, owned, live, was) && Complete(owned, was, roots)
      ensures was.Keys <= Heap()
    {
      forall o | o in was.Keys
        ensures o in Heap()
      {
        var j :| 0 <= j < |owned| && o in owned[j];
        assert Swept(pools[j], owned[j], live, was);
      }
    }

    lemma ReadyIsComplete(roots: seq<Ref>)
      requires Ready(roots)
      ensures Complete(Owned(), Contents(Heap()), roots)
    {
      var owned := Owned();
      forall o | o in Heap()
        ensures exists j :: 0 <= j < |owned| && o in owned[j]
      {
        var j :| 0 <= j < |pools| && o in pools[j].objs;
        assert o in owned[j];
      }
    }

    /** The mark phase leaves every pool ready for the sweep. */
    method MarkPhase(roots: seq<Ref>)
      requires Valid() && Unmarked() && Closed(Heap()) && AllIn(roots, Heap())
      modifies Heap()
      ensures Sweeping(0, old(Owned()), old(Live(Heap(), roots)), old(Contents(Heap())))
    {
      hide Closed, Live, AllIn, Sweeping, Separate;
      ghost var live, was := Live(Heap(), roots), Contents(Heap());
      MarkRoots(roots, Heap());
      MarkedIsSweeping(live, was);
    }

    /** What a chain of fields leads to from a root is left as it was and stays in use; all else has let go of
        what it held and is not in use. */
    ghost predicate SparesHeld(roots: seq<Ref>, was: map<Obj, Content>)
      reads pools, Buffers(), Heap(), was.Keys
    {
      Valid() && forall o :: o in was ==>
        && o.mark == 0 && (o in InUse() <==> Held(was, roots, o))
        && (if Held(was, roots, o) then o.data == was[o] else LetGo(was[o], o.data))
    }

    lemma CollectedSpares(roots: seq<Ref>, owned: seq<set<Obj>>, live: set<Obj>, was: map<Obj, Content>)
      requires Sweeping(|pools|, owned, live, was) && Complete(owned, was, roots) && Valid() && live <= was.Keys
      requires forall o :: o in was ==> (o in live <==> Held(was, roots, o))
      ensures SparesHeld(roots, was)
    {
      hide Held;
      CollectedIsInUse(roots, owned, live, was);
      forall o | o in was
        ensures o.mark == 0 && (if o in live then o.data == was[o] else LetGo(was[o], o.data))
      {
        var j :| 0 <= j < |owned| && o in owned[j];
        assert Swept(pools[j], owned[j], live, was);
        CleanedLetsGo(was[o]);
      }
      hide Swept, Todo, Separate, InUse;
    }

    /** Marks from the roots, then sweeps every pool. */
    method Collect(roots: seq<Ref>)
      requires Ready(roots)
      modifies this`allocCount, this`needGC, pools, Buffers(), Heap()
      ensures Ready(roots) && SparesHeld(roots, old(Contents(Heap())))
      ensures Collected(old(Owned()), old(Live(Heap(), roots)), old(Contents(Heap())))
      ensures forall j :: 0 <= j < |pools| ==> pools[j].free0 == old(pools[j].free0) || fresh(pools[j].free0)
    {
      hide Held, InUse, SparesHeld, Sweeping, Closed, Live, AllIn, Contents, Valid, Unmarked, Credit, Complete;
      ghost var live, was, owned := Live(Heap(), roots), Contents(Heap()), Owned();
      ReadyIsComplete(roots);
      ReadyIsHeld(roots);
      allocCount := 0;
      MarkPhase(roots);
      Sweep(owned, live, was);
      label Swept:
      needGC := false;
      assert Heap() == old@Swept(Heap()) && Buffers() == old@Swept(Buffers());
      CollectedIsReady(roots, owned, live, was);
      assert Valid() by { assert Ready(roots); }
      CollectedSpares(roots, owned, live, was);
    }

    lemma ReadyIsHeld(roots: seq<Ref>)
      requires Ready(roots)
      ensures Live(Heap(), roots) <= Contents(Heap()).Keys
      ensures forall o :: o in Contents(Heap()) ==> (o in Live(Heap(), roots) <==> Held(Contents(Heap()), roots, o))
    {
      forall o | o in Heap()
        ensures o in Live(Heap(), roots) <==> Held(Contents(Heap()), roots, o)
      {
        LiveIsHeld(Heap(), roots, o);
      }
    }

    /** No object may be handed out before a collection. */
    predicate Blocked(i: nat)
      requires i < |pools|
      reads this, pools, Buffers()
    {
      allocCount < 0 || (pools[i].nfree == 0 && pools[i].freetop >= pools[i].free0.Length)
    }

    /** Collects until objects can be handed out, which takes one collection at most. */
    method Engage(i: nat, roots: seq<Ref>)
      requires i < |pools| && Ready(roots)
      modifies this`allocCount, this`needGC, pools, Buffers(), Heap()
      ensures Ready(roots) && !Blocked(i)
      ensures forall j :: 0 <= j < |pools| ==> pools[j].free0 == old(pools[j].free0) || fresh(pools[j].free0)
      ensures old(Blocked(i)) ==> Collected(old(Owned()), old(Live(Heap(), roots)), old(Contents(Heap())))
      ensures !old(Blocked(i)) ==>
        allocCount == old(allocCount) && unchanged(pools) && unchanged(old(Buffers())) && unchanged(old(Heap()))
    {
      hide Ready, Sweeping, Live, Contents, Heap, Credit, SparesHeld, Held, InUse;
      if !Blocked(i) { return; }
      ghost var owned, live, was := Owned(), Live(Heap(), roots), Contents(Heap());
      while Blocked(i)
        invariant Ready(roots)
        invariant forall j :: 0 <= j < |pools| ==> pools[j].free0 == old(pools[j].free0) || fresh(pools[j].free0)
        invariant Blocked(i) ==> Heap() == old(Heap()) && Buffers() == old(Buffers())
        invariant if Blocked(i) then owned == Owned() && live == Live(Heap(), roots) && was == Contents(Heap())
                  else Collected(owned, live, was)
        decreases if Blocked(i) then 1 else 0
      {
        label Before:
        needGC := true;
        assert Heap() == old@Before(Heap()) && Buffers() == old@Before(Buffers());
        Collect(roots);
        SweptHasRoom(i, owned, live, was);
      }
    }

    lemma SweptHasRoom(i: nat, owned: seq<set<Obj>>, live: set<Obj>, was: map<Obj, Content>)
      requires i < |pools| && Sweeping(|pools|, owned, live, was)
      ensures pools[i].HasRoom()
    {
      assert Swept(pools[i], owned[i], live, was);
    }

    /** The heap after only pool `i` changed. */
    lemma HeapGrew(i: nat, mine: set<Obj>, heap: set<Obj>)
      requires i < |pools| && mine <= pools[i].objs
      requires heap == (set j, o | 0 <= j < |pools| && j != i && o in pools[j].objs :: o) + mine
      ensures Heap() == heap + pools[i].objs
    {
    }

    lemma NewcomersAreFine(heap: set<Obj>, roots: seq<Ref>)
      requires Valid() && heap <= Heap() && Closed(heap) && AllIn(roots, heap)
      requires forall o :: o in Heap() ==> o.mark == 0 && (o in heap || exists k :: o.data == Blank(k))
      ensures Ready(roots)
    {
      hide Valid;
      forall o | o in Heap()
        ensures AllIn(Refs(o.data), Heap())
      {
        if o !in heap {
          var k :| o.data == Blank(k);
          BlankRefersNowhere(k);
        }
      }
    }

    method TakeApart(i: nat, n: nat) returns (at: nat, got: nat)
      requires i < |pools| && Valid() && pools[i].HasRoom()
      modifies pools[i], pools[i].free0
      ensures Valid() && Handed(i, n, at, got)
      ensures forall j :: 0 <= j < |pools| && j != i ==> pools[j].objs == old(pools[j].objs)
    {
      OthersApart(i);
      assert forall j :: 0 <= j < |pools| ==> pools[j].Valid();
      hide Pool.Valid;
      at, got := pools[i].Take(n);
    }

    /** What pool `i` did to hand out a slice. */
    twostate predicate Handed(i: nat, n: nat, at: nat, got: nat)
      requires i < |pools|
      reads pools[i], pools[i].free0, pools[i].objs
    {
      var p := pools[i];
      && p.slices == old(p.slices) + [(at, got)] && got <= n && (n > 0 ==> got > 0) && at == p.frame + p.nfree
      && p.kept == old(p.kept) && p.OnlyNew()
      && p.free0 == old(p.free0) && old(p.freetop) <= p.freetop <= p.free0.Length
      && p.free0[..old(p.freetop)] == old(p.free0[..p.freetop])
    }

    /** Handing out from one pool disturbs no other pool and no object. */
    method TakeFrom(i: nat, n: nat, roots: seq<Ref>) returns (at: nat, got: nat)
      requires i < |pools| && Ready(roots) && pools[i].HasRoom()
      modifies pools[i], pools[i].free0
      ensures Ready(roots) && Handed(i, n, at, got) && old(Heap()) <= Heap()
    {
      ghost var heap := Heap();
      ghost var mine := pools[i].objs;
      at, got := TakeApart(i, n);
      hide Closed, AllIn, Valid;
      HeapGrew(i, mine, heap);
      assert forall o :: o in Heap() && o !in heap ==> o.data == Blank(pools[i].kind);
      NewcomersAreFine(heap, roots);
    }

    /** Whether the last slice of pool `i` is this one, of objects that the last collection did not keep. */
    ghost predicate Fresh(i: nat, at: nat, got: nat)
      requires i < |pools|
      reads pools, Buffers()
    {
      var p := pools[i];
      && at + got <= p.freetop <= p.free0.Length
      && |p.slices| > 0 && p.slices[|p.slices| - 1] == (at, got)
      && forall k :: at <= k < at + got ==> p.free0[k] != null && p.free0[k] in p.objs && p.free0[k] !in p.kept
    }

    method Deliver(i: nat, n: nat, roots: seq<Ref>) returns (at: nat, got: nat)
      requires i < |pools| && Ready(roots) && pools[i].HasRoom()
      modifies this`allocCount, pools[i], pools[i].free0
      ensures Ready(roots) && Handed(i, n, at, got) && Fresh(i, at, got) && allocCount == old(allocCount) - got
    {
      hide Closed, AllIn, Unmarked, Separate, Valid;
      at, got := TakeFrom(i, n, roots);
      LastSlice(i, at, got);
      label Taken:
      allocCount := allocCount - got;
      assert Heap() == old@Taken(Heap()) && Buffers() == old@Taken(Buffers());
    }

    /** Allocation by a thread that runs its collections itself. Whatever it hands out is in no
        other slice and was out of reach when the last collection ran. */
    method Get(i: nat, n: nat, roots: seq<Ref>) returns (at: nat, got: nat)
      requires i < |pools| && Ready(roots)
      modifies this`allocCount, this`needGC, pools, Buffers(), Heap()
      ensures Ready(roots) && got <= n && (n > 0 ==> got > 0) && Fresh(i, at, got)
      ensures !old(Blocked(i)) ==> allocCount == old(allocCount) - got && Handed(i, n, at, got)
      ensures old(Blocked(i)) ==> allocCount == Credit(old(Owned())) - got && pools[i].slices == [(at, got)]
      ensures old(Blocked(i)) ==> pools[i].kept == old(pools[i].objs * Live(Heap(), roots))
    {
      hide Live, Contents, Credit, Fresh, Sweeping, Ready, Heap;
      ghost var owned, live, was := Owned(), Live(Heap(), roots), Contents(Heap());
      ghost var first := Blocked(i);
      Engage(i, roots);
      if first { SweptKeeps(i, owned, live, was); }
      at, got := Deliver(i, n, roots);
    }

    lemma LastSlice(i: nat, at: nat, got: nat)
      requires i < |pools| && Valid()
      requires |pools[i].slices| > 0 && pools[i].slices[|pools[i].slices| - 1] == (at, got)
      ensures Fresh(i, at, got)
    {
      assert pools[i].Valid();
    }

    lemma SweptKeeps(i: nat, owned: seq<set<Obj>>, live: set<Obj>, was: map<Obj, Content>)
      requires i < |pools| && Sweeping(|pools|, owned, live, was)
      ensures pools[i].kept == owned[i] * live && pools[i].slices == []
    {
      assert Swept(pools[i], owned[i], live, was);
    }

    /** What the program may hold: objects kept by the last collection or handed out since. */
    ghost function InUse(): (s: set<Obj>)
      requires Valid()
      reads pools, Buffers(), Heap()
    {
      set i, o | 0 <= i < |pools| && o in pools[i].objs && (o in pools[i].kept || pools[i].HandedOut(o)) :: o
    }

    /** As long as the roots and the objects in use refer to objects in use only, nothing that
        can be reached is ever handed out again. */
    lemma ReachableIsNotHandedOut(roots: seq<Ref>, i: nat, b: nat)
      requires Ready(roots) && AllIn(roots, InUse()) && (forall o :: o in InUse() ==> AllIn(Refs(o.data), InUse()))
      requires i < |pools| && pools[i].frame <= b < pools[i].frame + pools[i].nfree
      ensures b < pools[i].free0.Length && pools[i].free0[b] !in Live(Heap(), roots)
    {
      var p, used, g := pools[i], InUse(), GraphOf(Heap());
      assert p.Valid();
      p.FrameIsUnused(b);
      var o: Obj := p.free0[b];
      assert o !in used by {
        forall j | 0 <= j < |pools| && o in pools[j].objs
          ensures j == i
        {
        }
      }
      if o in Live(Heap(), roots) {
        var n: nat :| o in Reached(g, roots, n);
        ReachedInside(g, roots, n, used);
      }
    }

    /** Right after a collection, what is in use is exactly what could be reached. */
    lemma CollectedIsInUse(roots: seq<Ref>, owned: seq<set<Obj>>, live: set<Obj>, was: map<Obj, Content>)
      requires Sweeping(|pools|, owned, live, was) && Complete(owned, was, roots) && Valid() && live <= was.Keys
      ensures InUse() == live
    {
      forall j | 0 <= j < |pools|
        ensures pools[j].kept == owned[j] * live && pools[j].slices == [] && owned[j] <= pools[j].objs
      {
        assert Swept(pools[j], owned[j], live, was);
      }
      forall o | o in live
        ensures o in InUse()
      {
        var j :| 0 <= j < |owned| && o in owned[j];
        assert o in pools[j].kept;
      }
      hide Swept, Todo, Separate;
    }
  }

  lemma TodoOwns(p: Pool, owned: set<Obj>, live: set<Obj>, was: map<Obj, Content>)
    requires Todo(p, owned, live, was)
    ensures p.objs == owned
  {
  }
}
