/** What each instruction does, stated on stacks of a known shape: a base, and
    the operands on top of it. */
module Instructions {
  import opened Basics
  import opened Values
  import opened Syntax
  import opened Semantics
  import opened Machine
  import opened Layout

  ghost predicate AtOp(m: Image, s: State, op: nat) {
    s.code < |m.codes| && Op(m.codes[s.code], s.ip, op)
  }

  ghost predicate AtArg(m: Image, s: State, op: nat, arg: nat) {
    s.code < |m.codes| && OpArg(m.codes[s.code], s.ip, op, arg)
  }

  ghost predicate AtConst(m: Image, s: State, op: nat, v: Value) {
    s.code < |m.codes| && OpConst(m.codes[s.code], s.ip, op, v)
  }

  /** The state after an instruction of `n` words left `ops` and the heap `h`. */
  function Next(s: State, n: nat, ops: seq<Value>, h: Heap): State {
    s.(ip := s.ip + n, ops := ops, heap := h)
  }

  function NextRes(s: State, n: nat, base: seq<Value>, r: Res<Value>): Status {
    match r case Ok(v) => Running(Next(s, n, base + [v], s.heap)) case Err(e) => Failed(e)
  }

  lemma DoBinary(m: Image, s: State, base: seq<Value>, a: Value, b: Value, op: BinOp)
    requires AtOp(m, s, BinaryCode(op)) && s.ops == base + [a, b]
    ensures Step(m, s) == match ApplyBinary(m.host, op, s.heap, a, b)
                          case Ok((v, h)) => Running(Next(s, 1, base + [v], h))
                          case Err(e) => Failed(e)
  {
    hide ApplyBinary;
    assert BinaryOf(BinaryCode(op)) == Some(op);
    assert s.ops[..|s.ops| - 2] == base;
  }

  lemma DoUnary(m: Image, s: State, base: seq<Value>, a: Value, op: UnOp)
    requires AtOp(m, s, UnaryCode(op)) && s.ops == base + [a]
    ensures Step(m, s) == NextRes(s, 1, base, ApplyUnary(m.host, op, a))
  {
    assert op == Negate ==> ApplyUnary(m.host, op, a) == ApplyUnary(m.host, Neg, a);
    hide ApplyUnary;
    assert s.ops[..|s.ops| - 1] == base;
  }

  lemma DoPush(m: Image, s: State)
    ensures AtOp(m, s, OP_PUSHNIL) ==> Step(m, s) == Running(Next(s, 1, s.ops + [Nil], s.heap))
    ensures AtOp(m, s, OP_PUSHEND) ==> Step(m, s) == Running(Next(s, 1, s.ops + [End], s.heap))
    ensures AtOp(m, s, OP_PUSHONE) ==> Step(m, s) == Running(Next(s, 1, s.ops + [Num(1.0)], s.heap))
    ensures AtOp(m, s, OP_PUSHZERO) ==> Step(m, s) == Running(Next(s, 1, s.ops + [Num(0.0)], s.heap))
  {
    assert s.ops[..|s.ops|] == s.ops;
  }

  lemma DoNew(m: Image, s: State)
    ensures AtOp(m, s, OP_NEWVEC) ==>
              Step(m, s) == Running(Next(s, 1, s.ops + [Vec(|s.heap|)], Alloc(s.heap, VecObj([]))))
    ensures AtOp(m, s, OP_NEWHASH) ==>
              Step(m, s) == Running(Next(s, 1, s.ops + [Hash(|s.heap|)], Alloc(s.heap, HashObj(map[]))))
  {
    assert s.ops[..|s.ops|] == s.ops;
  }

  lemma DoConst(m: Image, s: State, v: Value)
    requires AtConst(m, s, OP_PUSHCONST, v) && !v.Str?
    ensures v.Code? ==>
              Step(m, s) == Running(Next(s, 2, s.ops + [Func(|s.heap|)],
                                         Alloc(s.heap, FuncObj(v.index, [s.env.locals] + s.env.scopes))))
    ensures !v.Code? ==> Step(m, s) == Running(Next(s, 2, s.ops + [v], s.heap))
  {
    assert s.ops[..|s.ops|] == s.ops;
  }

  lemma DoName(m: Image, s: State, x: string)
    requires AtConst(m, s, OP_PUSHCONST, Text(x)) && Shares(m.codes[s.code], s.env.names)
    ensures Step(m, s) == Running(Next(s, 2, s.ops + [Name(s.env.names, x)], s.heap))
  {
    assert s.ops[..|s.ops|] == s.ops;
  }

  lemma DoLocal(m: Image, s: State, x: string)
    requires AtConst(m, s, OP_LOCAL, Text(x)) && Shares(m.codes[s.code], s.env.names)
    ensures Step(m, s) == NextRes(s, 2, s.ops, GetLocal(m.host, s.heap, s.env, Name(s.env.names, x)))
  {
    hide GetLocal;
    assert s.ops[..|s.ops|] == s.ops;
  }

  lemma DoMember(m: Image, s: State, base: seq<Value>, obj: Value, f: string)
    requires AtConst(m, s, OP_MEMBER, Text(f)) && s.ops == base + [obj]
    ensures Step(m, s) == NextRes(s, 2, base, GetMember(s.heap, obj, f))
  {
    hide GetMember;
    assert s.ops[..|s.ops| - 1] == base;
  }

  lemma DoPop(m: Image, s: State, base: seq<Value>, v: Value)
    requires AtOp(m, s, OP_POP) && s.ops == base + [v]
    ensures Step(m, s) == Running(Next(s, 1, base, s.heap))
  {
    assert s.ops[..|s.ops| - 1] + [] == base;
  }

  lemma DoDup(m: Image, s: State, base: seq<Value>, v: Value)
    requires AtOp(m, s, OP_DUP) && s.ops == base + [v]
    ensures Step(m, s) == Running(Next(s, 1, base + [v, v], s.heap))
  {
    assert s.ops[..|s.ops|] + [v] == base + [v, v];
  }

  lemma DoDup2(m: Image, s: State, base: seq<Value>, a: Value, b: Value)
    requires AtOp(m, s, OP_DUP2) && s.ops == base + [a, b]
    ensures Step(m, s) == Running(Next(s, 1, base + [a, b, a, b], s.heap))
  {
    assert s.ops[..|s.ops|] + [a, b] == base + [a, b, a, b];
  }

  lemma DoXchg(m: Image, s: State, base: seq<Value>, a: Value, b: Value)
    requires AtOp(m, s, OP_XCHG) && s.ops == base + [a, b]
    ensures Step(m, s) == Running(Next(s, 1, base + [b, a], s.heap))
  {
    assert s.ops[..|s.ops| - 2] == base;
  }

  lemma DoXchg2(m: Image, s: State, base: seq<Value>, a: Value, b: Value, c: Value)
    requires AtOp(m, s, OP_XCHG2) && s.ops == base + [a, b, c]
    ensures Step(m, s) == Running(Next(s, 1, base + [c, a, b], s.heap))
  {
    assert s.ops[..|s.ops| - 3] == base;
  }

  lemma DoHashAppend(m: Image, s: State, base: seq<Value>, h: Value, k: Value, v: Value)
    requires AtOp(m, s, OP_HAPPEND) && s.ops == base + [h, k, v]
    ensures Step(m, s) == Running(Next(s, 1, base + [h], PutField(s.heap, h, k, v)))
  {
    hide PutField;
    assert s.ops[..|s.ops| - 2] + [] == base + [h];
  }

  /** The operands that the code of a target leaves for its store. */
  predicate IsTarget(names: string -> Ident, lv: LValue, at: seq<Value>) {
    match lv
    case LSym(x) => at == [Name(names, x)]
    case LVar(x) => at == [Name(names, x)]
    case LMember(_, f) => |at| == 2 && at[1] == Name(names, f)
    case LIndex(_, _) => |at| == 2
  }

  lemma DoStore(m: Image, s: State, base: seq<Value>, v: Value, lv: LValue, at: seq<Value>)
    requires AtOp(m, s, StoreCode(lv)) && IsTarget(s.env.names, lv, at) && s.ops == base + [v] + at
    ensures Step(m, s) == match Store(lv, s.env, s.heap, at, v, m.host)
                          case Ok(h) => Running(Next(s, 1, base + [v], h))
                          case Err(e) => Failed(e)
  {
    hide SetSymbol, HashSet, SetMember, ContainerSet;
    assert s.ops[..|s.ops| - |at|] + [] == base + [v];
  }

  lemma DoJump(m: Image, s: State, target: nat)
    requires AtArg(m, s, OP_JMP, target) || AtArg(m, s, OP_JMPLOOP, target)
    ensures Step(m, s) == Running(s.(ip := target))
  {
  }

  lemma DoJumpIf(m: Image, s: State, op: nat, base: seq<Value>, v: Value, target: nat)
    requires op == OP_JIFTRUE || op == OP_JIFNOT || op == OP_JIFNOTPOP
    requires AtArg(m, s, op, target) && s.ops == base + [v]
    ensures Step(m, s) == match Boolify(m.host, v)
                          case Err(e) => Failed(e)
                          case Ok(b) =>
                            Running(s.(ip := if b == (op == OP_JIFTRUE) then target else s.ip + 2,
                                       ops := if op == OP_JIFNOTPOP then base else s.ops))
  {
    hide Boolify;
    assert s.ops[..|s.ops| - 1] + [] == base;
  }

  lemma DoJumpIfEnd(m: Image, s: State, base: seq<Value>, v: Value, target: nat)
    requires AtArg(m, s, OP_JIFEND, target) && s.ops == base + [v]
    ensures Step(m, s) == Running(if v == End then s.(ip := target, ops := base) else s.(ip := s.ip + 2))
  {
    assert s.ops[..|s.ops| - 1] + [] == base;
  }

  function Called(s: State, n: nat, base: seq<Value>, r: Res<Entry>): Status {
    match r
    case Err(e) => Failed(e)
    case Ok(en) =>
      Running(State(0, en.code, en.env, |base|, s.callers + [Frame(s.ip + n, s.code, s.env, s.bp)],
                    base, s.marks, en.heap))
  }

  lemma DoCall(m: Image, s: State, base: seq<Value>, f: Value, args: seq<Value>)
    requires AtArg(m, s, OP_FCALL, |args|) && s.ops == base + [f] + args
    ensures Step(m, s) == Called(s, 2, base, EnterCall(m.params, s.heap, f, None, args))
  {
    hide EnterCall;
    var n, k := |s.ops|, |args|;
    assert s.ops[n - k - 1] == f && s.ops[n - k..] == args && s.ops[..n - k - 1] == base;
  }

  lemma DoMethodCall(m: Image, s: State, base: seq<Value>, obj: Value, f: Value, args: seq<Value>)
    requires AtArg(m, s, OP_MCALL, |args|) && s.ops == base + [obj, f] + args
    ensures Step(m, s) == Called(s, 2, base, EnterCall(m.params, s.heap, f, Some(obj), args))
  {
    hide EnterCall;
    var n, k := |s.ops|, |args|;
    assert s.ops[n - k - 1] == f && s.ops[n - k - 2] == obj && s.ops[n - k..] == args && s.ops[..n - k - 2] == base;
  }

  lemma DoNamedCall(m: Image, s: State, base: seq<Value>, f: Value, h: Value)
    requires AtOp(m, s, OP_FCALLH) && s.ops == base + [f, h]
    ensures Step(m, s) == Called(s, 1, base, EnterNamed(m.host, m.params, s.heap, f, None, h))
  {
    hide EnterNamed;
    assert s.ops[..|s.ops| - 2] == base;
  }

  lemma DoNamedMethodCall(m: Image, s: State, base: seq<Value>, obj: Value, f: Value, h: Value)
    requires AtOp(m, s, OP_MCALLH) && s.ops == base + [obj, f, h]
    ensures Step(m, s) == Called(s, 1, base, EnterNamed(m.host, m.params, s.heap, f, Some(obj), h))
  {
    hide EnterNamed;
    assert s.ops[..|s.ops| - 3] == base;
  }

  /** Back in the caller, whose operands below the call are as they were. */
  function Returned(s: State, marks: seq<nat>, v: Value, h: Heap): Status
    requires s.bp <= |s.ops|
  {
    if s.callers == [] then Done(v, h)
    else
      var f := s.callers[|s.callers| - 1];
      Running(State(f.ip, f.code, f.env, f.bp, s.callers[..|s.callers| - 1], s.ops[..s.bp] + [v], marks, h))
  }

  lemma DoReturn(m: Image, s: State, v: Value)
    requires AtOp(m, s, OP_RETURN) && |s.ops| > s.bp && s.ops[|s.ops| - 1] == v
    ensures Step(m, s) == Returned(s, s.marks, v, s.heap)
  {
  }

  lemma DoMark(m: Image, s: State)
    requires AtOp(m, s, OP_MARK)
    ensures Step(m, s) == Running(s.(ip := s.ip + 1, marks := s.marks + [|s.ops|]))
  {
  }

  lemma DoUnmark(m: Image, s: State, marks: seq<nat>, h: nat)
    requires AtOp(m, s, OP_UNMARK) && s.marks == marks + [h]
    ensures Step(m, s) == Running(s.(ip := s.ip + 1, marks := marks))
  {
  }

  lemma DoBreak(m: Image, s: State, marks: seq<nat>, h: nat)
    requires s.marks == marks + [h] && h <= |s.ops|
    ensures AtOp(m, s, OP_BREAK) ==> Step(m, s) == Running(s.(ip := s.ip + 1, ops := s.ops[..h]))
    ensures AtOp(m, s, OP_BREAK2) ==> Step(m, s) == Running(s.(ip := s.ip + 1, ops := s.ops[..h], marks := marks))
  {
  }

  lemma DoUnpack(m: Image, s: State, base: seq<Value>, v: Value, n: nat)
    requires AtArg(m, s, OP_UNPACK, n) && s.ops == base + [v]
    ensures Step(m, s) == match UnpackVec(s.heap, v, n)
                          case Ok(vs) => Running(Next(s, 2, base + vs, s.heap))
                          case Err(e) => Failed(e)
  {
    hide UnpackVec;
    assert s.ops[..|s.ops| - 1] == base;
  }

  lemma TruncateNat(i: nat)
    ensures Truncate(i as real) == i
  {
  }

  /** Past the last element only the end token is pushed; otherwise the index on
      the stack moves on and the element is pushed above it. */
  lemma DoEach(m: Image, s: State, base: seq<Value>, v: Value, i: nat, useIndex: bool)
    requires AtOp(m, s, if useIndex then OP_INDEX else OP_EACH) && s.ops == base + [v, Num(i as real)]
    ensures Step(m, s) == match EachItem(s.heap, v, i, useIndex)
                          case Err(e) => Failed(e)
                          case Ok(item) =>
                            if i >= |s.heap[v.addr].elems| then Running(Next(s, 1, s.ops + [End], s.heap))
                            else Running(Next(s, 1, base + [v, Num((i + 1) as real), item], s.heap))
  {
    TruncateNat(i);
    hide Truncate, EachItem;
    assert s.ops[..|s.ops|] == s.ops;
    assert s.ops[..|s.ops| - 1] == base + [v];
    assert base + [v] + [Num((i + 1) as real), Nil] == base + [v, Num((i + 1) as real), Nil];
    match EachItem(s.heap, v, i, useIndex)
    case Err(_) =>
    case Ok(item) => assert base + [v] + [Num((i + 1) as real), item] == base + [v, Num((i + 1) as real), item];
  }
}
