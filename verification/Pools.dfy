/** The object pools under the collector: blocks of objects, a free buffer that is
    cut into frames, the slices handed to contexts, and the sweep that refills it. */
module Pools {
  import opened Basics
  import opened Marking

  const MIN_BLOCK_SIZE := 32
  const OBJ_CACHE_SZ := 1

  datatype Kind = Str | Vec | Hash | Code | Func | CCode | Ghost

  /** A pool for each, in this order. */
  const KINDS: seq<Kind> := [Str, Vec, Hash, Code, Func, CCode, Ghost]

  /** What a zeroed object of a pool holds. */
  function Blank(k: Kind): Content {
    match k
    case Str => StrData(0)
    case Vec => VecData([])
    case Hash => HashData([])
    case Code => CodeData(Nil, [])
    case Func => FuncData(Nil, Nil, Nil)
    case CCode => CCodeData
    case Ghost => GhostData(false)
  }

  /** What a freed object is left with: its own storage is released, a function keeps its stale fields. */
  function Cleaned(d: Content): Content {
    match d
    case StrData(_) => StrData(0)
    case VecData(_) => VecData([])
    case HashData(_) => HashData([])
    case CodeData(src, _) => CodeData(src, [])
    case GhostData(_) => GhostData(false)
    case _ => d
  }

  function Flatten(blocks: seq<seq<Obj>>): seq<Obj> {
    if blocks == [] then [] else blocks[0] + Flatten(blocks[1..])
  }

  /** The objects of `dead`, in the order of the blocks. */
  function Sift(s: seq<Obj>, dead: set<Obj>): seq<Obj> {
    if s == [] then []
    else
      var k := |s| - 1;
      Sift(s[..k], dead) + if s[k] in dead then [s[k]] else []
  }

  ghost predicate Covers(s: set<Obj>, row: seq<Obj>) {
    (forall o :: o in s ==> o in row) && (forall o :: o in row ==> o in s)
  }

  lemma {:induction false} DistinctCount(s: set<Obj>, row: seq<Obj>)
    requires Distinct(row) && Covers(s, row)
    ensures |s| == |row|
  {
    if row == [] {
      assert s == {};
    } else {
      assert row[0] !in row[1..];
      assert row == [row[0]] + row[1..];
      DistinctCount(s - {row[0]}, row[1..]);
    }
  }

  lemma DistinctAppend(a: seq<Obj>, b: seq<Obj>)
    requires Distinct(a) && Distinct(b) && (forall o :: o in a ==> o !in b)
    ensures Distinct(a + b)
  {
    forall i, j | 0 <= i < j < |a + b|
      ensures (a + b)[i] != (a + b)[j]
    {
      if i < |a| <= j {
        assert a[i] in a && b[j - |a|] in b;
      }
    }
  }

  lemma {:induction false} FlattenAppend(a: seq<seq<Obj>>, b: seq<Obj>)
    ensures Flatten(a + [b]) == Flatten(a) + b
  {
    if a == [] {
      assert a + [b] == [b] && [b][1..] == [];
    } else {
      FlattenAppend(a[1..], b);
      assert (a + [b])[1..] == a[1..] + [b];
    }
  }

  /** The blocks up to one of them are a prefix of all of them. */
  lemma {:induction false} FlattenPrefix(blocks: seq<seq<Obj>>, k: nat)
    requires k <= |blocks|
    ensures Flatten(blocks[..k]) <= Flatten(blocks)
    decreases |blocks| - k
  {
    if k == |blocks| {
      assert blocks[..k] == blocks;
    } else {
      FlattenPrefix(blocks, k + 1);
      assert blocks[..k + 1] == blocks[..k] + [blocks[k]];
      FlattenAppend(blocks[..k], blocks[k]);
    }
  }

  /** The place of a block's element in the row of all objects. */
  lemma FlattenAt(blocks: seq<seq<Obj>>, b: nat, e: nat)
    requires b < |blocks| && e < |blocks[b]|
    ensures |Flatten(blocks[..b])| + e < |Flatten(blocks)|
    ensures Flatten(blocks)[|Flatten(blocks[..b])| + e] == blocks[b][e]
    ensures |Flatten(blocks[..b + 1])| == |Flatten(blocks[..b])| + |blocks[b]|
  {
    FlattenPrefix(blocks, b + 1);
    assert blocks[..b + 1] == blocks[..b] + [blocks[b]];
    FlattenAppend(blocks[..b], blocks[b]);
  }

  /** Sifting keeps exactly the dead objects, each once. */
  lemma {:induction false} SiftExact(s: seq<Obj>, dead: set<Obj>)
    requires Distinct(s)
    ensures Distinct(Sift(s, dead)) && |Sift(s, dead)| <= |s|
    ensures forall o :: o in Sift(s, dead) <==> o in s && o in dead
  {
    if s == [] {
    } else {
      var k := |s| - 1;
      SiftExact(s[..k], dead);
      assert s == s[..k] + [s[k]];
      assert s[k] !in s[..k];
    }
  }

  lemma SiftNext(s: seq<Obj>, i: nat, dead: set<Obj>)
    requires i < |s|
    ensures Sift(s[..i + 1], dead) == Sift(s[..i], dead) + if s[i] in dead then [s[i]] else []
  {
    assert s[..i + 1][..i] == s[..i];
  }

  /** The size of the block that a collection of `total` objects makes after it freed `freed`, or 0 for none. */
  function Growth(total: nat, freed: nat): (n: nat)
    requires freed <= total
  {
    var need := (total - freed) / 2 - freed;
    if freed >= total / 4 || need <= 0 then 0
    else if need < MIN_BLOCK_SIZE then MIN_BLOCK_SIZE
    else need
  }

  /** What the free frame holds after a collection: the new block alone if one is
      made, which hides what was freed, or what was freed. */
  function Offered(total: nat, freed: nat): nat
    requires freed <= total
  {
    if Growth(total, freed) > 0 then Growth(total, freed) else freed
  }

  /** Exactly when at least a quarter of the pool is on offer after a collection,
      which is the lower end of what the source aims at. Where a block is made, the
      pool must be small, or a ninth of it, at most, must have come free. */
  lemma QuarterOfferedIff(total: nat, freed: nat)
    requires freed <= total
    ensures Growth(total, freed) > 0 <==> freed < total / 4
    ensures 4 * Offered(total, freed) >= total + Growth(total, freed)
            <==> if freed < total / 4 then total <= 96 || 3 * freed + 2 * ((total + 2) / 3) <= total
                 else freed >= (total + 3) / 4
    ensures Offered(1000, 249) == 126 && Offered(67, 16) == 16 && Offered(1000, 100) == 350 && Offered(100, 20) == 32
  {
    var half, third := (total - freed) / 2, (total + 2) / 3;
    assert 2 * half <= total - freed <= 2 * half + 1 && 3 * third - 2 <= total <= 3 * third;
  }

  /** Exactly when at most half of the pool is on offer, the upper end of the aim. */
  lemma HalfOfferedIff(total: nat, freed: nat)
    requires freed <= total
    ensures 2 * Offered(total, freed) <= total + Growth(total, freed)
            <==> if freed < total / 4 then total >= MIN_BLOCK_SIZE else freed <= total / 2
    ensures Offered(31, 0) == 32 && Offered(31, 16) == 16
  {
    var half := (total - freed) / 2;
    assert 2 * half <= total - freed <= 2 * half + 1;
  }

  /** Two index ranges of the free buffer share no place. */
  predicate Apart(a: (nat, nat), b: (nat, nat)) {
    a.0 + a.1 <= b.0 || b.0 + b.1 <= a.0
  }

  /** An object the sweep has still to visit, and one that it has visited. */
  ghost predicate Due(o: Obj, dead: set<Obj>, was: map<Obj, Content>)
    reads o
  {
    o in was && (o.mark == 0 <==> o in dead) && o.data == was[o]
  }

  ghost predicate Done(o: Obj, dead: set<Obj>, was: map<Obj, Content>)
    reads o
  {
    o in was && o.mark == 0 && o.data == if o in dead then Cleaned(was[o]) else was[o]
  }

  class Pool {
    const kind: Kind
    var blocks: seq<seq<Obj>>
    var free0: array<Obj?>
    /** Where the current free frame starts, how much of it is left, and where the used buffer ends. */
    var frame: nat
    var nfree: nat
    var freetop: nat
    /** The slices handed out since the last collection. */
    ghost var slices: seq<(nat, nat)>
    /** What the last collection left alone. */
    ghost var kept: set<Obj>
    /** The objects of all blocks. */
    ghost var objs: set<Obj>

    /** Every object of the pool is in one place of one block. */
    ghost predicate Row()
      reads `blocks, `objs
    {
      Distinct(Flatten(blocks)) && Covers(objs, Flatten(blocks))
    }

    ghost predicate Valid()
      reads this, free0
    {
      && Row() && Buffer() && kept <= objs
    }

    /** The used part of the buffer holds distinct objects that were free at the last
        collection, and the slices and the frame lie in it without overlap. */
    ghost predicate Buffer()
      reads this, free0
    {
      && frame + nfree <= freetop <= free0.Length
      && (forall i :: 0 <= i < freetop ==> free0[i] != null && free0[i] in objs && free0[i] !in kept)
      && (forall i, j :: 0 <= i < j < freetop ==> free0[i] != free0[j])
      && (forall i :: 0 <= i < |slices| ==> slices[i].0 + slices[i].1 <= freetop && Apart(slices[i], (frame, nfree)))
      && (forall i, j :: 0 <= i < j < |slices| ==> Apart(slices[i], slices[j]))
    }

    /** A block can be made and will give at least one object. */
    predicate HasRoom()
      reads this, free0
    {
      nfree > 0 || freetop < free0.Length
    }

    constructor (k: Kind, nThreads: nat)
      ensures Valid() && kind == k && fresh(free0) && blocks == [] && objs == {} && kept == {} && slices == []
      ensures HasRoom() && nfree == 0
    {
      kind, blocks, frame, nfree, freetop, slices, kept, objs := k, [], 0, 0, 0, [], {}, {};
      free0 := new Obj?[3 * MIN_BLOCK_SIZE / 2 + nThreads * OBJ_CACHE_SZ](_ => null);
    }

    method PoolSize() returns (total: nat)
      ensures total == |Flatten(blocks)|
    {
      total := 0;
      for b := 0 to |blocks|
        invariant total == |Flatten(blocks[..b])|
      {
        assert blocks[..b + 1] == blocks[..b] + [blocks[b]];
        FlattenAppend(blocks[..b], blocks[b]);
        total := total + |blocks[b]|;
      }
      assert blocks[..|blocks|] == blocks;
    }

    /** A zeroed block of new objects. */
    method Zeroed(size: nat) returns (block: seq<Obj>)
      ensures |block| == size && Distinct(block) && fresh(block)
      ensures forall o :: o in block ==> o.mark == 0 && o.data == Blank(kind)
    {
      block := [];
      for i := 0 to size
        invariant |block| == i && Distinct(block) && fresh(block)
        invariant forall o :: o in block ==> o.mark == 0 && o.data == Blank(kind)
      {
        var o := new Obj(Blank(kind));
        block := block + [o];
      }
    }

    method AddBlock(size: nat) returns (block: seq<Obj>)
      requires Valid()
      modifies this`blocks, this`objs
      ensures Valid() && blocks == [block] + old(blocks) && fresh(block) && |block| == size
      ensures forall o :: o in block ==> o.mark == 0 && o.data == Blank(kind)
    {
      ghost var before := Flatten(blocks);
      block := Zeroed(size);
      DistinctAppend(block, before);
      blocks := [block] + blocks;
      objs := objs + set o | o in block;
      assert Flatten(blocks) == block + before;
    }

    /** Copies objects behind the used part of the buffer. */
    method Fill(added: seq<Obj>)
      requires freetop + |added| <= free0.Length
      modifies this`nfree, this`frame, free0
      ensures frame == freetop && nfree == |added|
      ensures free0[..frame] == old(free0[..freetop]) && free0[frame..frame + nfree] == added
    {
      nfree := 0;
      frame := freetop;
      for i := 0 to |added|
        invariant nfree == i && frame == freetop && free0[..frame] == old(free0[..freetop])
        invariant free0[frame..frame + nfree] == added[..i]
      {
        free0[frame + nfree] := added[i];
        nfree := nfree + 1;
        assert free0[frame..frame + nfree] == free0[frame..frame + i] + [added[i]];
      }
      assert added[..|added|] == added;
    }

    /** Opens a frame behind the used part of the buffer. */
    method OpenFrame(added: seq<Obj>)
      requires Valid() && Distinct(added) && |added| <= free0.Length - freetop
      requires forall o :: o in added ==> o in objs && o !in kept && (o as Obj?) !in free0[..freetop]
      modifies this`nfree, this`frame, this`freetop, free0
      ensures Valid() && frame == old(freetop) && nfree == |added| && freetop == frame + nfree
      ensures free0[..frame] == old(free0[..freetop]) && free0[frame..freetop] == added
    {
      ghost var used := free0[..freetop];
      Fill(added);
      freetop := freetop + |added|;
      assert free0[..frame] == used && free0[frame..freetop] == added;
      assert forall o :: o in added ==> o in objs && (o as Obj?) !in used && o !in kept;
      FrameOpened(used, added);
    }

    /** Adds a block and opens a frame on its objects, as many as the buffer takes. */
    method NewBlock(want: int) returns (ghost block: seq<Obj>)
      requires Valid()
      modifies this`blocks, this`objs, this`nfree, this`frame, this`freetop, free0
      ensures Valid() && blocks == [block] + old(blocks) && fresh(block)
      ensures |block| == if want < MIN_BLOCK_SIZE then MIN_BLOCK_SIZE else want
      ensures forall o :: o in block ==> o.mark == 0 && o.data == Blank(kind)
      ensures frame == old(freetop) && freetop == frame + nfree
      ensures nfree == if |block| > free0.Length - frame then free0.Length - frame else |block|
      ensures free0[..frame] == old(free0[..freetop])
      ensures free0[frame..freetop] == block[..nfree]
    {
      var need := if want < MIN_BLOCK_SIZE then MIN_BLOCK_SIZE else want;
      ghost var used := free0[..freetop];
      var b := AddBlock(need);
      assert free0[..freetop] == used;
      if need > free0.Length - freetop { need := free0.Length - freetop; }
      assert forall o :: o in b[..need] ==> o in b;
      assert Flatten(blocks) == b + Flatten(old(blocks));
      assert forall i, j :: 0 <= i < j < |b| ==> Flatten(blocks)[i] == b[i] && Flatten(blocks)[j] == b[j];
      OpenFrame(b[..need]);
      block := b;
    }

    /** The buffer is in order after a frame of new objects is put behind the used part. */
    ghost method FrameOpened(used: seq<Obj?>, added: seq<Obj>)
      requires Row() && kept <= objs
      requires free0.Length >= freetop == |used| + |added| && frame == |used| && nfree == |added|
      requires free0[..frame] == used && free0[frame..freetop] == added && Distinct(added)
      requires forall i :: 0 <= i < |used| ==> used[i] != null && used[i] in objs && used[i] !in kept
      requires forall i, j :: 0 <= i < j < |used| ==> used[i] != used[j]
      requires forall o :: o in added ==> o in objs && o !in used && o !in kept
      requires forall i :: 0 <= i < |slices| ==> slices[i].0 + slices[i].1 <= |used|
      requires forall i, j :: 0 <= i < j < |slices| ==> Apart(slices[i], slices[j])
      ensures Valid()
    {
      forall i | 0 <= i < freetop
        ensures free0[i] == if i < frame then used[i] else added[i - frame]
      {
        if i < frame {
          assert free0[i] == free0[..frame][i];
        } else {
          assert free0[i] == free0[frame..freetop][i - frame];
        }
      }
    }

    /** Objects that appeared since are new, unmarked and blank. */
    twostate predicate OnlyNew()
      reads `objs, objs
    {
      && old(objs) <= objs
      && (forall o :: o in objs && o !in old(objs) ==> fresh(o) && o.mark == 0 && o.data == Blank(kind))
    }

    /** Makes a block an eighth of the pool's size when the frame is used up. */
    method Refill()
      requires Valid() && HasRoom()
      modifies this`blocks, this`objs, this`nfree, this`frame, this`freetop, free0
      ensures Valid() && nfree > 0 && OnlyNew()
      ensures free0[..old(freetop)] == old(free0[..freetop]) && old(freetop) <= freetop
      ensures old(nfree) > 0 ==> blocks == old(blocks) && frame == old(frame) && nfree == old(nfree)
      ensures old(nfree) == 0 ==> |blocks| > 0 && blocks[1..] == old(blocks)
      ensures old(nfree) == 0 ==> frame == old(freetop)
      ensures old(nfree) == 0 ==>
                var eighth := |old(Flatten(blocks))| / 8; |blocks[0]| == if eighth < 32 then 32 else eighth
    {
      if nfree == 0 {
        var total := PoolSize();
        ghost var b := NewBlock(total / 8);
        assert Flatten(blocks) == b + Flatten(old(blocks));
      }
    }

    /** Cuts at most `n` objects off the top of the frame. */
    method Cut(n: nat) returns (at: nat, got: nat)
      requires Valid()
      modifies this`nfree, this`slices
      ensures Valid() && slices == old(slices) + [(at, got)]
      ensures got == (if old(nfree) < n then old(nfree) else n) && nfree == old(nfree) - got && at == frame + nfree
    {
      got := if nfree < n then nfree else n;
      nfree := nfree - got;
      at := frame + nfree;
      slices := slices + [(at, got)];
    }

    /** Hands out at most `n` objects, at least one when any is asked for. */
    method Take(n: nat) returns (at: nat, got: nat)
      requires Valid() && HasRoom()
      modifies this`blocks, this`objs, this`nfree, this`frame, this`freetop, this`slices, free0
      ensures Valid() && slices == old(slices) + [(at, got)] && OnlyNew()
      ensures got <= n && (n > 0 ==> got > 0) && (got < n ==> nfree == 0)
      ensures at == frame + nfree && at + got <= freetop
      ensures free0[..old(freetop)] == old(free0[..freetop]) && old(freetop) <= freetop
      ensures old(nfree) > 0 ==> blocks == old(blocks) && frame == old(frame)
      ensures old(nfree) == 0 ==> |blocks| > 0 && blocks[1..] == old(blocks) && frame == old(freetop)
      ensures old(nfree) == 0 ==>
                var eighth := |old(Flatten(blocks))| / 8; |blocks[0]| == if eighth < 32 then 32 else eighth
    {
      Refill();
      at, got := Cut(n);
    }

    /** No object is in two slices, or in a slice and the frame, and none survived the last collection. */
    lemma HandedOutOnce(i: nat, a: nat, j: nat, b: nat)
      requires Valid() && i < |slices| && slices[i].0 <= a < slices[i].0 + slices[i].1
      requires j <= |slices| && i != j
      requires j < |slices| ==> slices[j].0 <= b < slices[j].0 + slices[j].1
      requires j == |slices| ==> frame <= b < frame + nfree
      ensures a < free0.Length && b < free0.Length
      ensures free0[a] != free0[b] && free0[a] in objs && free0[a] !in kept
    {
      if j < |slices| {
        assert if i < j then Apart(slices[i], slices[j]) else Apart(slices[j], slices[i]);
      } else {
        assert Apart(slices[i], (frame, nfree));
      }
    }

    /** Handed out in a slice since the last collection. */
    ghost predicate HandedOut(o: Obj)
      reads this, free0
      requires freetop <= free0.Length
    {
      exists s, k :: 0 <= s < |slices| && slices[s].0 <= k < slices[s].0 + slices[s].1 && k < freetop && free0[k] == o
    }

    /** What is still to be handed out is neither kept from the last collection nor handed out since. */
    lemma FrameIsUnused(b: nat)
      requires Valid() && frame <= b < frame + nfree
      ensures free0[b] != null && free0[b] !in kept && !HandedOut(free0[b])
    {
      forall s, k | 0 <= s < |slices| && slices[s].0 <= k < slices[s].0 + slices[s].1
        ensures free0[k] != free0[b]
      {
        HandedOutOnce(s, k, |slices|, b);
      }
    }

    /** The unmarked objects. */
    ghost function Dead(): (s: set<Obj>)
      reads `objs, objs
    {
      set o | o in objs && o.mark == 0
    }

    ghost function Contents(): map<Obj, Content>
      reads `objs, objs
    {
      map o | o in objs :: o.data
    }

    /** The first `k` objects have been visited; `dead` and `was` are the state before the sweep. */
    ghost predicate Swept(dead: set<Obj>, was: map<Obj, Content>, k: nat)
      reads this, free0, objs
    {
      var flat := Flatten(blocks);
      && k <= |flat| <= free0.Length && Row() && nfree <= k && was.Keys == objs
      && free0[..nfree] == Sift(flat[..k], dead)
      && (forall i :: 0 <= i < k ==> Done(flat[i], dead, was))
      && (forall i :: k <= i < |flat| ==> Due(flat[i], dead, was))
    }

    lemma Owns(dead: set<Obj>, was: map<Obj, Content>, k: nat)
      requires Swept(dead, was, k) && k < |Flatten(blocks)|
      ensures Flatten(blocks)[k] in objs
    {
    }

    /** An object is at one place of the blocks. */
    lemma OnlyHere(k: nat)
      requires Row() && k < |Flatten(blocks)|
      ensures forall i :: 0 <= i < |Flatten(blocks)| && i != k ==> Flatten(blocks)[i] != Flatten(blocks)[k]
    {
    }

    /** Cleans an object and puts it on the free list. */
    method FreeElem(o: Obj)
      requires nfree < free0.Length
      modifies this`nfree, free0, o`data
      ensures nfree == old(nfree) + 1 && free0[..nfree] == old(free0[..nfree]) + [o]
      ensures o.data == Cleaned(old(o.data))
    {
      o.data := Cleaned(o.data);
      free0[nfree] := o;
      nfree := nfree + 1;
    }

    /** One element of the sweep: an unmarked object is cleaned and put on the free list. */
    method Visit(o: Obj, ghost dead: set<Obj>, ghost was: map<Obj, Content>, ghost k: nat)
      requires Swept(dead, was, k) && k < |Flatten(blocks)| && Flatten(blocks)[k] == o
      modifies this`nfree, free0, o
      ensures Swept(dead, was, k + 1)
    {
      SiftNext(Flatten(blocks), k, dead);
      OnlyHere(k);
      Owns(dead, was, k);
      hide Distinct, Flatten, Covers, Row, Sift, Cleaned;
      assert Due(o, dead, was);
      if o.mark == 0 { FreeElem(o); }
      o.mark := 0;
      assert Done(o, dead, was);
      hide Due, Done;
    }

    /** The sweep over every element of every block. */
    method Sweep()
      requires Row() && |Flatten(blocks)| <= free0.Length && nfree == 0
      modifies this`nfree, free0, objs
      ensures nfree <= |Flatten(blocks)|
      ensures free0[..nfree] == Sift(Flatten(blocks), old(Dead()))
      ensures Cleared(old(Dead()), old(Contents()))
    {
      ghost var dead, was := Dead(), Contents();
      SweepBlocks(dead, was);
      ghost var flat := Flatten(blocks);
      assert flat[..|flat|] == flat;
    }

    method SweepBlocks(ghost dead: set<Obj>, ghost was: map<Obj, Content>)
      requires Swept(dead, was, 0)
      modifies this`nfree, free0, objs
      ensures Swept(dead, was, |Flatten(blocks)|)
    {
      hide Swept, Distinct, Covers, Row;
      for b := 0 to |blocks|
        invariant Swept(dead, was, |Flatten(blocks[..b])|)
      {
        for e := 0 to |blocks[b]|
          invariant Swept(dead, was, |Flatten(blocks[..b])| + e)
        {
          FlattenAt(blocks, b, e);
          Owns(dead, was, |Flatten(blocks[..b])| + e);
          Visit(blocks[b][e], dead, was, |Flatten(blocks[..b])| + e);
        }
        assert blocks[..b + 1] == blocks[..b] + [blocks[b]];
        FlattenAppend(blocks[..b], blocks[b]);
      }
      assert blocks[..|blocks|] == blocks;
    }

    /** Replaces the buffer when the pool may need a larger one. */
    method Reserve(total: nat, nThreads: nat)
      modifies this`free0
      ensures free0 == old(free0) || fresh(free0)
      ensures free0.Length >= 3 * total / 2 + nThreads && free0.Length >= 48 + nThreads
    {
      var size := if total < MIN_BLOCK_SIZE then MIN_BLOCK_SIZE else total;
      size := 3 * size / 2 + nThreads * OBJ_CACHE_SZ;
      if free0.Length < size {
        free0 := new Obj?[size](_ => null);
      }
    }

    /** The sweep into an emptied buffer: the frame is what came free, and every slice is void. */
    method Rebuild(total: nat, nThreads: nat)
      requires Valid() && total == |Flatten(blocks)|
      modifies this`free0, this`nfree, this`frame, this`freetop, this`kept, this`slices, free0, objs
      ensures Valid() && slices == [] && (free0 == old(free0) || fresh(free0))
      ensures free0.Length >= 3 * total / 2 && free0.Length >= 48
      ensures kept == objs - old(Dead()) && frame == 0 && nfree == freetop <= free0.Length
      ensures free0[..freetop] == Sift(Flatten(blocks), old(Dead()))
      ensures Cleared(old(Dead()), old(Contents()))
    {
      hide Distinct, Sift, Flatten;
      ghost var dead, flat := Dead(), Flatten(blocks);
      Reserve(total, nThreads);
      nfree := 0;
      frame := 0;
      assert Dead() == dead && Contents() == old(Contents());
      Sweep();
      freetop := nfree;
      kept, slices := objs - dead, [];
      Settled(dead);
    }

    /** A buffer of sifted objects is in order. */
    lemma Settled(dead: set<Obj>)
      requires Row() && kept == objs - dead && slices == []
      requires frame == 0 && nfree == freetop <= free0.Length && free0[..freetop] == Sift(Flatten(blocks), dead)
      ensures Valid()
    {
      var sifted := Sift(Flatten(blocks), dead);
      SiftExact(Flatten(blocks), dead);
      forall i | 0 <= i < freetop
        ensures free0[i] == sifted[i] && sifted[i] in sifted
      {
        assert free0[i] == free0[..freetop][i];
      }
    }

    /** Every mark is clear, and the dead objects among those of the map are cleaned. */
    ghost predicate Cleared(dead: set<Obj>, was: map<Obj, Content>)
      reads `objs, objs
    {
      && (forall o :: o in objs ==> o.mark == 0)
      && was.Keys <= objs
      && (forall o :: o in was ==> o.data == if o in dead then Cleaned(was[o]) else was[o])
    }

    /** Makes a block when less than a quarter of the pool came free. */
    method Grow(total: nat)
      requires Valid() && total == |Flatten(blocks)| && frame == 0 && nfree == freetop <= total
      requires free0.Length >= 3 * total / 2 && free0.Length >= 48
      modifies this`blocks, this`objs, this`nfree, this`frame, this`freetop, free0
      ensures Valid() && HasRoom() && OnlyNew()
      ensures old(freetop) <= freetop && free0[..old(freetop)] == old(free0[..freetop])
      ensures Refilled(old(blocks), old(nfree))
    {
      if nfree < total / 4 {
        var used, avail := total - nfree, nfree;
        var need := used / 2 - avail;
        if need > 0 {
          ghost var b := NewBlock(need);
          assert Flatten(blocks) == b + Flatten(old(blocks));
        }
      }
    }

    /** Frees exactly the unmarked objects, clears every mark, and makes a block when too
        little came free. Returns how many objects may be handed out before the next collection. */
    method Reap(nThreads: nat) returns (credit: nat)
      requires Valid()
      modifies this, free0, objs
      ensures Valid() && HasRoom() && slices == [] && (free0 == old(free0) || fresh(free0))
      ensures kept == old(objs - Dead())
      ensures credit == |old(Flatten(blocks))| / 2
      ensures Refilled(old(blocks), |Sift(old(Flatten(blocks)), old(Dead()))|)
      ensures |Sift(old(Flatten(blocks)), old(Dead()))| <= freetop
      ensures free0[..|Sift(old(Flatten(blocks)), old(Dead()))|] == Sift(old(Flatten(blocks)), old(Dead()))
      ensures OnlyNew() && Cleared(old(Dead()), old(Contents()))
    {
      hide Distinct, Buffer, Refilled, Flatten, Sift;
      var total := PoolSize();
      SiftExact(Flatten(blocks), Dead());
      Rebuild(total, nThreads);
      assert |free0[..freetop]| == freetop;
      Grow(total);
      credit := total / 2;
    }

    /** The frame after a sweep that freed `freed` objects of `was`: those, or a new block instead of them. */
    ghost predicate Refilled(was: seq<seq<Obj>>, freed: nat)
      reads this
    {
      && frame + nfree == freetop && freed <= |Flatten(was)| && nfree == Offered(|Flatten(was)|, freed)
      && var n := Growth(|Flatten(was)|, freed);
         if n > 0 then |blocks| > 0 && blocks[1..] == was && frame == freed && |blocks[0]| == n
         else blocks == was && frame == 0
    }
  }
}
