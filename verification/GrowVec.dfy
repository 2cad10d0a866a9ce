/** The growable vector: a record replaced by a half larger one when full and by a smaller one
    when half empty, with the cost of all the copying. */
module GrowVec {
  import opened Basics

  class VecRec<V(0)> {
    var size: nat
    const alloced: nat
    const cells: array<V>

    constructor (alloced: nat)
      ensures this.alloced == alloced == cells.Length && size == 0 && fresh(cells)
    {
      this.alloced, size := alloced, 0;
      cells := new V[alloced];
    }
  }

  /** The room of a record made for `size` elements. */
  function RoomFor(size: nat): nat {
    1 + size * 3 / 2
  }

  function Distance(a: int, b: int): nat {
    if a < b then b - a else a - b
  }

  class Vector<V(0)> {
    var rec: VecRec?<V>
    /** The elements. */
    ghost var contents: seq<V>
    /** The size when the record was made, the elements copied so far, and the operations so far. */
    ghost var base: nat
    ghost var copied: nat
    ghost var ops: nat

    ghost predicate Valid()
      reads this, rec, if rec != null then {rec.cells} else {}
    {
      if rec == null then contents == []
      else rec.size <= rec.alloced == rec.cells.Length && contents == rec.cells[..rec.size]
    }

    /** Grown and shrunk by single elements only, and paid for. */
    ghost predicate Paid()
      reads this, rec
    {
      && (rec != null ==> rec.alloced == RoomFor(base) && rec.alloced / 2 <= rec.size <= rec.alloced)
      && (rec == null ==> base == 0)
      && copied + 3 * Distance(if rec == null then 0 else rec.size, base) <= 3 * ops
    }

    constructor ()
      ensures Valid() && Paid() && rec == null && contents == [] && copied == 0 && ops == 0
    {
      rec, contents, base, copied, ops := null, [], 0, 0, 0;
    }

    /** A record of the same elements with half as much room again. */
    method Resize()
      requires Valid()
      modifies this`rec, this`base, this`copied
      ensures rec != null && fresh(rec) && fresh(rec.cells) && Valid()
      ensures rec.size == |contents| == base && rec.alloced == RoomFor(base) && copied == old(copied) + |contents|
    {
      var oldsz := if rec == null then 0 else rec.size;
      var newsz := 1 + oldsz * 3 / 2;
      if oldsz > newsz { assert false; }
      var vr := new VecRec<V>(newsz);
      vr.size := oldsz;
      for i := 0 to oldsz
        invariant vr.size == oldsz && vr.cells[..i] == contents[..i] && copied == old(copied) + i
        invariant Valid() && rec == old(rec) && base == old(base)
      {
        vr.cells[i] := rec.cells[i];
        copied := copied + 1;
        assert vr.cells[..i + 1] == contents[..i + 1];
      }
      rec, base := vr, oldsz;
    }

    method Get(at: int) returns (r: Option<V>)
      requires Valid()
      ensures r == if -|contents| <= at < |contents| then Some(contents[if at < 0 then at
          + |contents| else at]) else None
    {
      r := None;
      if rec != null {
        var i := at;
        if i < 0 { i := i + rec.size; }
        if 0 <= i < rec.size { r := Some(rec.cells[i]); }
      }
    }

    method Size() returns (n: nat)
      requires Valid()
      ensures n == |contents|
    {
      n := if rec == null then 0 else rec.size;
    }

    /** Adds an element and returns its index. */
    method Append(v: V) returns (at: nat)
      requires Valid()
      modifies this, rec, if rec != null then {rec.cells} else {}
      ensures Valid() && contents == old(contents) + [v] && at == |old(contents)|
      ensures ops == old(ops) + 1 && (old(Paid()) ==> Paid() && copied <= 3 * ops)
      ensures rec != null && (rec == old(rec) || (fresh(rec) && fresh(rec.cells)))
    {
      ghost var paid := Paid();
      ghost var size := |contents|;
      while rec == null || rec.size >= rec.alloced
        invariant Valid() && contents == old(contents) && ops == old(ops) && (paid ==> Paid())
        invariant rec == old(rec) || (rec != null && fresh(rec) && fresh(rec.cells))
        decreases if rec == null || rec.size >= rec.alloced then 1 else 0
      {
        if paid { GrowthIsPaid(base, size); }
        Resize();
      }
      at := Put(v);
    }

    /** Stores an element where there is room for it. */
    method Put(v: V) returns (at: nat)
      requires Valid() && rec != null && rec.size < rec.alloced
      modifies this`contents, this`ops, rec, rec.cells
      ensures Valid() && contents == old(contents) + [v] && at == |old(contents)|
      ensures ops == old(ops) + 1 && (old(Paid()) ==> Paid())
    {
      rec.cells[rec.size] := v;
      at := rec.size;
      rec.size := rec.size + 1;
      contents, ops := contents + [v], ops + 1;
    }

    /** Takes off the last element, if there is one. */
    method RemoveLast() returns (r: Option<V>)
      requires Valid()
      modifies this, rec
      ensures Valid() && r == (if old(contents) == [] then None else Some(old(contents)[|old(contents)| - 1]))
      ensures contents == if old(contents) == [] then [] else old(contents)[..|old(contents)| - 1]
      ensures ops == old(ops) + 1 && (old(Paid()) ==> Paid() && copied <= 3 * ops)
      ensures rec == old(rec) || (rec != null && fresh(rec) && fresh(rec.cells))
    {
      ghost var paid := Paid();
      ops := ops + 1;
      if rec == null || rec.size == 0 { return None; }
      r := Some(rec.cells[rec.size - 1]);
      rec.size := rec.size - 1;
      contents := contents[..|contents| - 1];
      if rec.size < rec.alloced / 2 {
        if paid { ShrinkingIsPaid(base, rec.size); }
        Resize();
      }
    }
  }

  /** A full record has gained at least a third of its elements since it was made. */
  lemma GrowthIsPaid(base: nat, size: nat)
    ensures size == RoomFor(base) ==> size <= 3 * Distance(size, base)
  {
  }

  /** A record less than half full has lost at least a third as many elements as it holds. */
  lemma ShrinkingIsPaid(base: nat, size: nat)
    requires size + 1 >= RoomFor(base) / 2 > size
    ensures size <= 3 * Distance(size, base)
  {
  }

  // ----- whole runs -----

  datatype VecOp<V> = Push(v: V) | Pop

  datatype Reply<V> = At(index: nat) | Taken(r: Option<V>)

  /** What a run leaves of an empty sequence. */
  function Left<V>(ops: seq<VecOp<V>>): (s: seq<V>) {
    if ops == [] then []
    else
      var s := Left(ops[..|ops| - 1]);
      match ops[|ops| - 1]
      case Push(v) => s + [v]
      case Pop => if s == [] then [] else s[..|s| - 1]
  }

  /** What the last operation of a run answers: an index, or the element it took off. */
  function Answer<V>(ops: seq<VecOp<V>>): (r: Reply<V>)
    requires ops != []
  {
    var s := Left(ops[..|ops| - 1]);
    match ops[|ops| - 1]
    case Push(_) => At(|s|)
    case Pop => Taken(if s == [] then None else Some(s[|s| - 1]))
  }

  lemma LeftNone<V>()
    ensures Left<V>([]) == []
  {
  }

  /** One more operation. */
  lemma LeftNext<V>(ops: seq<VecOp<V>>, i: nat)
    requires i < |ops|
    ensures var s, t := Left(ops[..i]), Left(ops[..i + 1]);
            match ops[i]
            case Push(v) => t == s + [v] && Answer(ops[..i + 1]) == At(|s|)
            case Pop =>
              && t == (if s == [] then [] else s[..|s| - 1])
              && Answer(ops[..i + 1]) == Taken(if s == [] then None else Some(s[|s| - 1]))
  {
    assert ops[..i + 1][..i] == ops[..i];
  }

  /** Any run of appends and removals on a fresh vector leaves and answers what it
      would on a sequence, and copies at most three elements for each operation. */
  method Run<V(0)>(ops: seq<VecOp<V>>) returns (v: Vector<V>, answers: seq<Reply<V>>)
    ensures v.Valid() && v.contents == Left(ops) && v.copied <= 3 * |ops|
    ensures |answers| == |ops| && forall i :: 0 <= i < |ops| ==> answers[i] == Answer(ops[..i + 1])
    ensures v.rec != null ==> v.rec.alloced <= 2 * |v.contents| + 1
  {
    hide Left, Answer;
    v := new Vector();
    answers := [];
    LeftNone<V>();
    assert ops[..0] == [];
    for i := 0 to |ops|
      invariant fresh(v) && (v.rec != null ==> fresh(v.rec) && fresh(v.rec.cells))
      invariant v.Valid() && v.Paid() && v.ops == i && v.contents == Left(ops[..i])
      invariant |answers| == i && forall k :: 0 <= k < i ==> answers[k] == Answer(ops[..k + 1])
    {
      LeftNext(ops, i);
      match ops[i] {
        case Push(x) =>
          var at := v.Append(x);
          answers := answers + [At(at)];
        case Pop =>
          var r := v.RemoveLast();
          answers := answers + [Taken(r)];
      }
    }
    assert ops[..|ops|] == ops;
  }
}
