/** The interpreter loop over its mutable stacks. */
module Interpreter {
  import opened Basics
  import opened Values
  import opened Machine

  class Context {
    const image: Image
    var ip: nat
    var code: nat
    var env: Env
    var bp: nat
    var fStack: seq<Frame>
    var opStack: seq<Value>
    var markStack: seq<nat>
    var heap: Heap

    ghost function Abs(): State
      reads this
    {
      State(ip, code, env, bp, fStack, opStack, markStack, heap)
    }

    constructor (m: Image, f: nat, e: Env, h: Heap)
      ensures image == m && Abs() == State(0, f, e, 0, [], [], [], h)
    {
      image := m;
      ip, code, env, bp := 0, f, e, 0;
      fStack, opStack, markStack, heap := [], [], [], h;
    }

    /** The state after an instruction is the state it leads to, if it leads to one. */
    ghost predicate Reached(st: Status)
      reads this
    {
      st.Running? ==> Abs() == st.s
    }

    method Drop(n: nat)
      requires n <= |opStack|
      modifies this`opStack
      ensures opStack == old(opStack)[..|old(opStack)| - n]
    {
      opStack := opStack[..|opStack| - n];
    }

    method Push(v: Value)
      modifies this`opStack
      ensures opStack == old(opStack) + [v]
    {
      opStack := opStack + [v];
    }

    /** Replaces the top `n` operands by a computed value, or raises its error. */
    method Replace(n: nat, r: Res<Value>) returns (st: Status)
      requires n <= |opStack|
      modifies this`opStack
      ensures st == PutRes(old(Abs()), n, r) && Reached(st)
    {
      if r.Err? { return Failed(r.error); }
      Drop(n);
      Push(r.value);
      st := Running(State(ip, code, env, bp, fStack, opStack, markStack, heap));
    }

    method Here() returns (st: Status)
      ensures st == Running(Abs())
    {
      st := Running(State(ip, code, env, bp, fStack, opStack, markStack, heap));
    }

    method DoBinary(op: BinOp) returns (st: Status)
      requires |opStack| >= 2
      modifies this`opStack, this`heap
      ensures st == StepBinary(image, op, old(Abs())) && Reached(st)
    {
      var n := |opStack|;
      var r := ApplyBinary(image.host, op, heap, opStack[n - 2], opStack[n - 1]);
      if r.Err? { return Failed(r.error); }
      Drop(2);
      Push(r.value.0);
      heap := r.value.1;
      st := Here();
    }

    method DoJump(op: nat, target: nat) returns (st: Status)
      requires |opStack| >= Needs(op, target)
      requires op in {OP_JMP, OP_JMPLOOP, OP_JIFEND, OP_JIFTRUE, OP_JIFNOT, OP_JIFNOTPOP}
      modifies this`ip, this`opStack
      ensures st == StepJump(image, op, target, old(Abs())) && Reached(st)
    {
      hide Boolify;
      var n := |opStack|;
      assert n > 0 ==> opStack[..n - 1] + [] == opStack[..n - 1];
      if op == OP_JMP || op == OP_JMPLOOP {
        ip := target;
      } else if n == 0 {
        return Stuck;
      } else if op == OP_JIFEND {
        if opStack[n - 1] == End {
          Drop(1);
          ip := target;
        }
      } else {
        var b := Boolify(image.host, opStack[n - 1]);
        if b.Err? { return Failed(b.error); }
        if op == OP_JIFNOTPOP { Drop(1); }
        if b.value == (op == OP_JIFTRUE) { ip := target; }
      }
      st := Here();
    }

    method SetupFuncall(keep: nat, r: Res<Entry>) returns (st: Status)
      requires keep <= |opStack|
      modifies this
      ensures st == Enter(old(Abs()), keep, r) && Reached(st)
    {
      if r.Err? { return Failed(r.error); }
      fStack := fStack + [Frame(ip, code, env, bp)];
      ip, code, env, bp := 0, r.value.code, r.value.env, keep;
      opStack, heap := opStack[..keep], r.value.heap;
      st := Here();
    }

    method DoCall(op: nat, arg: nat) returns (st: Status)
      requires |opStack| >= Needs(op, arg)
      requires op in {OP_FCALL, OP_MCALL, OP_FCALLH, OP_MCALLH, OP_RETURN}
      modifies this
      ensures st == StepCall(image, op, arg, old(Abs())) && Reached(st)
    {
      hide EnterCall, EnterNamed;
      var n := |opStack|;
      if op == OP_FCALL {
        st := SetupFuncall(n - arg - 1, EnterCall(image.params, heap, opStack[n - arg - 1], None, opStack[n - arg..]));
      } else if op == OP_MCALL {
        st := SetupFuncall(n - arg - 2,
          EnterCall(image.params, heap, opStack[n - arg - 1], Some(opStack[n - arg - 2]), opStack[n - arg..]));
      } else if op == OP_FCALLH {
        st := SetupFuncall(n - 2, EnterNamed(image.host, image.params, heap, opStack[n - 2], None, opStack[n - 1]));
      } else if op == OP_MCALLH {
        st := SetupFuncall(n - 3,
          EnterNamed(image.host, image.params, heap, opStack[n - 2], Some(opStack[n - 3]), opStack[n - 1]));
      } else if fStack == [] {
        st := Done(opStack[n - 1], heap);
      } else if bp >= n {
        st := Stuck;
      } else {
        var f := fStack[|fStack| - 1];
        opStack := opStack[..bp] + [opStack[n - 1]];
        fStack := fStack[..|fStack| - 1];
        ip, code, env, bp := f.ip, f.code, f.env, f.bp;
        st := Here();
      }
    }

    method DoMark(op: nat) returns (st: Status)
      modifies this`opStack, this`markStack
      ensures st == StepMark(op, old(Abs())) && Reached(st)
    {
      var k := |markStack|;
      if op == OP_MARK {
        markStack := markStack + [|opStack|];
      } else if k == 0 {
        return Stuck;
      } else if op == OP_UNMARK {
        markStack := markStack[..k - 1];
      } else if markStack[k - 1] > |opStack| {
        return Stuck;
      } else {
        opStack := opStack[..markStack[k - 1]];
        if op != OP_BREAK { markStack := markStack[..k - 1]; }
      }
      st := Here();
    }

    method DoConst(op: nat, c: Value) returns (st: Status)
      requires |opStack| >= Needs(op, 0) && op in {OP_PUSHCONST, OP_LOCAL, OP_MEMBER}
      modifies this`opStack, this`heap
      ensures st == StepConst(image, op, c, old(Abs())) && Reached(st)
    {
      assert opStack[..|opStack|] == opStack;
      if op == OP_PUSHCONST {
        if c.Code? {
          Push(Func(|heap|));
          heap := Alloc(heap, FuncObj(c.index, [env.locals] + env.scopes));
        } else {
          Push(c);
        }
        st := Here();
      } else if !c.Str? {
        st := Stuck;
      } else if op == OP_LOCAL {
        st := Replace(0, GetLocal(image.host, heap, env, c));
      } else {
        st := Replace(1, GetMember(heap, opStack[|opStack| - 1], c.s));
      }
    }

    method DoStore(op: nat) returns (st: Status)
      requires |opStack| >= Needs(op, 0)
      requires op in {OP_SETSYM, OP_SETLOCAL, OP_SETMEMBER, OP_INSERT, OP_HAPPEND}
      modifies this`opStack, this`heap
      ensures st == StepStore(image, op, old(Abs())) && Reached(st)
    {
      var n := |opStack|;
      assert forall k :: 0 <= k <= n ==> opStack[..k] + [] == opStack[..k];
      if op == OP_SETSYM {
        heap := SetSymbol(heap, env, opStack[n - 1], opStack[n - 2]);
        Drop(1);
      } else if op == OP_SETLOCAL {
        heap := HashSet(heap, env.locals, opStack[n - 1], opStack[n - 2]);
        Drop(1);
      } else if op == OP_HAPPEND {
        heap := PutField(heap, opStack[n - 3], opStack[n - 2], opStack[n - 1]);
        Drop(2);
      } else {
        var r := if op == OP_SETMEMBER then SetMember(heap, opStack[n - 2], opStack[n - 1], opStack[n - 3])
                 else ContainerSet(image.host, heap, opStack[n - 2], opStack[n - 1], opStack[n - 3]);
        if r.Err? { return Failed(r.error); }
        heap := r.value;
        Drop(2);
      }
      st := Here();
    }

    /** The instructions that only rearrange the stack, or push a constant. */
    method DoShuffle(op: nat) returns (st: Status)
      requires |opStack| >= Needs(op, 0)
      requires op in {OP_POP, OP_DUP, OP_DUP2, OP_XCHG, OP_XCHG2, OP_PUSHONE, OP_PUSHZERO, OP_PUSHNIL, OP_PUSHEND}
      modifies this`opStack
      ensures st == StepStack(image, op, 0, old(Abs())) && Reached(st)
    {
      var n := |opStack|;
      assert opStack[..n] == opStack;
      if op == OP_POP {
        Drop(1);
        assert old(opStack)[..n - 1] + [] == opStack;
      } else if op == OP_DUP {
        Push(opStack[n - 1]);
      } else if op == OP_DUP2 {
        Push(opStack[n - 2]);
        Push(opStack[n - 1]);
        assert opStack == old(opStack) + [old(opStack)[n - 2], old(opStack)[n - 1]];
      } else if op == OP_XCHG {
        opStack := opStack[n - 1 := opStack[n - 2]][n - 2 := opStack[n - 1]];
        assert opStack == old(opStack)[..n - 2] + [old(opStack)[n - 1], old(opStack)[n - 2]];
      } else if op == OP_XCHG2 {
        opStack := opStack[n - 1 := opStack[n - 2]][n - 2 := opStack[n - 3]][n - 3 := opStack[n - 1]];
        assert opStack == old(opStack)[..n - 3] + [old(opStack)[n - 1], old(opStack)[n - 3], old(opStack)[n - 2]];
      } else if op == OP_PUSHONE {
        Push(Num(1.0));
      } else if op == OP_PUSHZERO {
        Push(Num(0.0));
      } else if op == OP_PUSHNIL {
        Push(Nil);
      } else {
        Push(End);
      }
      st := Here();
    }

    method DoOther(op: nat, arg: nat) returns (st: Status)
      requires |opStack| >= Needs(op, arg)
      requires op !in {OP_POP, OP_DUP, OP_DUP2, OP_XCHG, OP_XCHG2, OP_PUSHONE, OP_PUSHZERO, OP_PUSHNIL, OP_PUSHEND}
      modifies this`opStack, this`heap
      ensures st == StepStack(image, op, arg, old(Abs())) && Reached(st)
    {
      var n := |opStack|;
      assert opStack[..n] == opStack;
      if op == OP_NEG || op == OP_NOT {
        st := Replace(1, ApplyUnary(image.host, if op == OP_NEG then Neg else Not, opStack[n - 1]));
      } else if op == OP_NEWVEC {
        Push(Vec(|heap|));
        heap := Alloc(heap, VecObj([]));
        st := Here();
      } else if op == OP_NEWHASH {
        Push(Hash(|heap|));
        heap := Alloc(heap, HashObj(map[]));
        st := Here();
      } else if op == OP_UNPACK {
        var r := UnpackVec(heap, opStack[n - 1], arg);
        if r.Err? { return Failed(r.error); }
        opStack := opStack[..n - 1] + r.value;
        st := Here();
      } else if op == OP_EACH || op == OP_INDEX {
        st := EvalEach(op == OP_INDEX);
      } else {
        st := Stuck;
      }
    }

    /** Leaves vector and index on the stack and moves the index on in place. */
    method EvalEach(useIndex: bool) returns (st: Status)
      requires |opStack| >= 2
      modifies this`opStack
      ensures st == StepStack(image, if useIndex then OP_INDEX else OP_EACH, 0, old(Abs())) && Reached(st)
    {
      var n := |opStack|;
      assert opStack[..n] == opStack;
      if !opStack[n - 1].Num? || opStack[n - 1].n < 0.0 { return Stuck; }
      var i := Truncate(opStack[n - 1].n);
      var item := EachItem(heap, opStack[n - 2], i, useIndex);
      if item.Err? { return Failed(item.error); }
      if i >= |heap[opStack[n - 2].addr].elems| {
        Push(End);
      } else {
        opStack := opStack[n - 1 := Num((i + 1) as real)];
        Push(item.value);
        assert opStack == old(opStack)[..n - 1] + [Num((i + 1) as real), item.value];
      }
      st := Here();
    }

    /** One turn of the loop. */
    method Turn() returns (st: Status)
      modifies this
      ensures st == Step(image, old(Abs())) && Reached(st)
    {
      hide StepBinary, StepJump, StepCall, StepMark, StepConst, StepStore, StepStack;
      if code >= |image.codes| || ip >= |image.codes[code].words| { return Stuck; }
      var cd := image.codes[code];
      var op := cd.words[ip];
      var arg := 0;
      if HasArg(op) {
        if ip + 1 >= |cd.words| { return Stuck; }
        arg := cd.words[ip + 1];
      }
      if |opStack| < Needs(op, arg) { return Stuck; }
      ip := ip + (if HasArg(op) then 2 else 1);
      if BinaryOf(op).Some? {
        st := DoBinary(BinaryOf(op).value);
      } else if op in {OP_JMP, OP_JMPLOOP, OP_JIFEND, OP_JIFTRUE, OP_JIFNOT, OP_JIFNOTPOP} {
        st := DoJump(op, arg);
      } else if op in {OP_FCALL, OP_MCALL, OP_FCALLH, OP_MCALLH, OP_RETURN} {
        st := DoCall(op, arg);
      } else if op in {OP_MARK, OP_UNMARK, OP_BREAK, OP_BREAK2} {
        st := DoMark(op);
      } else if op in {OP_PUSHCONST, OP_LOCAL, OP_MEMBER} {
        if arg >= |cd.consts| { return Stuck; }
        st := DoConst(op, cd.consts[arg]);
      } else if op in {OP_SETSYM, OP_SETLOCAL, OP_SETMEMBER, OP_INSERT, OP_HAPPEND} {
        st := DoStore(op);
      } else if op in {OP_POP, OP_DUP, OP_DUP2, OP_XCHG, OP_XCHG2, OP_PUSHONE, OP_PUSHZERO, OP_PUSHNIL, OP_PUSHEND} {
        st := DoShuffle(op);
      } else {
        st := DoOther(op, arg);
      }
    }

    /** The interpreter loop, followed for any number of turns: of a run that stops, all of
        it when the number is large enough, and of one that does not, any part. */
    method Run(turns: nat) returns (st: Status)
      modifies this
      ensures st == Steps(image, turns, old(Abs())) && Reached(st)
    {
      hide Step;
      var left := turns;
      st := Here();
      while st.Running? && left > 0
        invariant st.Running? ==> Abs() == st.s && Steps(image, left, Abs()) == Steps(image, turns, old(Abs()))
        invariant !st.Running? ==> st == Steps(image, turns, old(Abs()))
        decreases left
      {
        st := Turn();
        left := left - 1;
      }
    }
  }
}
