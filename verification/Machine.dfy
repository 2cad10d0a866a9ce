/** The virtual machine: 16-bit code words, an operand stack, a stack of marks
    holding operand heights, and a stack of call frames. `Step` is one turn of
    the interpreter loop; `Interpreter` is the loop over its mutable state. */
module Machine {
  import opened Basics
  import opened Values

  const OP_NOT := 0
  const OP_MUL := 1
  const OP_PLUS := 2
  const OP_MINUS := 3
  const OP_DIV := 4
  const OP_NEG := 5
  const OP_CAT := 6
  const OP_LT := 7
  const OP_LTE := 8
  const OP_GT := 9
  const OP_GTE := 10
  const OP_EQ := 11
  const OP_NEQ := 12
  const OP_EACH := 13
  const OP_JMP := 14
  const OP_JMPLOOP := 15
  const OP_JIFNOTPOP := 16
  const OP_JIFEND := 17
  const OP_FCALL := 18
  const OP_MCALL := 19
  const OP_RETURN := 20
  const OP_PUSHCONST := 21
  const OP_PUSHONE := 22
  const OP_PUSHZERO := 23
  const OP_PUSHNIL := 24
  const OP_POP := 25
  const OP_DUP := 26
  const OP_XCHG := 27
  const OP_INSERT := 28
  const OP_EXTRACT := 29
  const OP_MEMBER := 30
  const OP_SETMEMBER := 31
  const OP_LOCAL := 32
  const OP_SETLOCAL := 33
  const OP_NEWVEC := 34
  const OP_VAPPEND := 35
  const OP_NEWHASH := 36
  const OP_HAPPEND := 37
  const OP_MARK := 38
  const OP_UNMARK := 39
  const OP_BREAK := 40
  const OP_SETSYM := 41
  const OP_DUP2 := 42
  const OP_INDEX := 43
  const OP_BREAK2 := 44
  const OP_PUSHEND := 45
  const OP_JIFTRUE := 46
  const OP_JIFNOT := 47
  const OP_FCALLH := 48
  const OP_MCALLH := 49
  const OP_XCHG2 := 50
  const OP_UNPACK := 51

  /** A compiled function: its code words and its constant pool. */
  datatype CodeObj = CodeObj(words: seq<nat>, consts: seq<Value>)

  /** The code objects of a program, by function index. */
  datatype Image = Image(host: Host, params: seq<Params>, codes: seq<CodeObj>)

  /** A suspended call: where it resumes, and the operand height it began at. */
  datatype Frame = Frame(ip: nat, code: nat, env: Env, bp: nat)

  datatype State = State(ip: nat, code: nat, env: Env, bp: nat, callers: seq<Frame>,
                         ops: seq<Value>, marks: seq<nat>, heap: Heap)

  /** `Stuck` stands for what the interpreter does not check: a stack underflow,
      an address outside the code, an unknown opcode. */
  datatype Status = Running(s: State) | Done(v: Value, heap: Heap) | Failed(error: string) | Stuck

  function BinaryOf(op: nat): Option<BinOp> {
    if op == OP_MUL then Some(Mul) else if op == OP_PLUS then Some(Plus)
    else if op == OP_MINUS then Some(Minus) else if op == OP_DIV then Some(Div)
    else if op == OP_CAT then Some(Cat) else if op == OP_LT then Some(Lt)
    else if op == OP_LTE then Some(Lte) else if op == OP_GT then Some(Gt)
    else if op == OP_GTE then Some(Gte) else if op == OP_EQ then Some(Eq)
    else if op == OP_NEQ then Some(Neq) else if op == OP_EXTRACT then Some(Extract)
    else if op == OP_VAPPEND then Some(Append) else None
  }

  predicate HasArg(op: nat) {
    op in {OP_JMP, OP_JMPLOOP, OP_JIFNOTPOP, OP_JIFEND, OP_JIFTRUE, OP_JIFNOT, OP_FCALL, OP_MCALL,
           OP_PUSHCONST, OP_MEMBER, OP_LOCAL, OP_UNPACK}
  }

  /** How many operands an instruction looks at. */
  function Needs(op: nat, arg: nat): nat {
    if BinaryOf(op).Some? then 2
    else if op in {OP_POP, OP_DUP, OP_NEG, OP_NOT, OP_MEMBER, OP_JIFEND, OP_JIFTRUE, OP_JIFNOT,
                   OP_JIFNOTPOP, OP_RETURN, OP_UNPACK} then 1
    else if op in {OP_DUP2, OP_XCHG, OP_SETSYM, OP_SETLOCAL, OP_EACH, OP_INDEX, OP_FCALLH} then 2
    else if op in {OP_XCHG2, OP_SETMEMBER, OP_INSERT, OP_HAPPEND, OP_MCALLH} then 3
    else if op == OP_FCALL then arg + 1
    else if op == OP_MCALL then arg + 2
    else 0
  }

  /** `STK(i)`: the i-th operand from the top, counting from one. */
  function Stk(s: State, i: nat): Value
    requires 1 <= i <= |s.ops|
  {
    s.ops[|s.ops| - i]
  }

  /** Replaces the top `n` operands by `vs`. */
  function Put(s: State, n: nat, vs: seq<Value>): State
    requires n <= |s.ops|
  {
    s.(ops := s.ops[..|s.ops| - n] + vs)
  }

  /** Replaces the top `n` operands by a computed value, or fails. */
  function PutRes(s: State, n: nat, r: Res<Value>): Status
    requires n <= |s.ops|
  {
    match r case Ok(v) => Running(Put(s, n, [v])) case Err(e) => Failed(e)
  }

  /** One turn of the interpreter loop. */
  function Step(m: Image, s: State): Status {
    if s.code >= |m.codes| || s.ip >= |m.codes[s.code].words| then Stuck
    else
      var words := m.codes[s.code].words;
      var op := words[s.ip];
      if HasArg(op) && s.ip + 1 >= |words| then Stuck
      else
        var arg := if HasArg(op) then words[s.ip + 1] else 0;
        if |s.ops| < Needs(op, arg) then Stuck
        else
          var t := s.(ip := s.ip + (if HasArg(op) then 2 else 1));
          if BinaryOf(op).Some? then StepBinary(m, BinaryOf(op).value, t)
          else if op in {OP_JMP, OP_JMPLOOP, OP_JIFEND, OP_JIFTRUE, OP_JIFNOT, OP_JIFNOTPOP} then
            StepJump(m, op, arg, t)
          else if op in {OP_FCALL, OP_MCALL, OP_FCALLH, OP_MCALLH, OP_RETURN} then StepCall(m, op, arg, t)
          else if op in {OP_MARK, OP_UNMARK, OP_BREAK, OP_BREAK2} then StepMark(op, t)
          else if op in {OP_PUSHCONST, OP_LOCAL, OP_MEMBER} then
            if arg < |m.codes[s.code].consts| then StepConst(m, op, m.codes[s.code].consts[arg], t) else Stuck
          else if op in {OP_SETSYM, OP_SETLOCAL, OP_SETMEMBER, OP_INSERT, OP_HAPPEND} then StepStore(m, op, t)
          else StepStack(m, op, arg, t)
  }

  function StepBinary(m: Image, op: BinOp, t: State): Status
    requires |t.ops| >= 2
  {
    match ApplyBinary(m.host, op, t.heap, Stk(t, 2), Stk(t, 1))
    case Ok((v, h)) => Running(Put(t, 2, [v]).(heap := h))
    case Err(e) => Failed(e)
  }

  function StepJump(m: Image, op: nat, target: nat, t: State): Status
    requires |t.ops| >= Needs(op, target)
  {
    if op == OP_JMP || op == OP_JMPLOOP then Running(t.(ip := target))
    else if |t.ops| == 0 then Stuck
    else if op == OP_JIFEND then
      Running(if Stk(t, 1) == End then Put(t, 1, []).(ip := target) else t)
    else match Boolify(m.host, Stk(t, 1))
      case Err(e) => Failed(e)
      case Ok(b) =>
        if op == OP_JIFTRUE then Running(if b then t.(ip := target) else t)
        else if op == OP_JIFNOT then Running(if !b then t.(ip := target) else t)
        else Running(if !b then Put(t, 1, []).(ip := target) else Put(t, 1, []))
  }

  /** Suspends the caller above `keep` operands and starts the callee. */
  function Enter(t: State, keep: nat, r: Res<Entry>): Status
    requires keep <= |t.ops|
  {
    match r
    case Err(e) => Failed(e)
    case Ok(en) =>
      Running(State(0, en.code, en.env, keep, t.callers + [Frame(t.ip, t.code, t.env, t.bp)],
                    t.ops[..keep], t.marks, en.heap))
  }

  function StepCall(m: Image, op: nat, arg: nat, t: State): Status
    requires |t.ops| >= Needs(op, arg)
    requires op in {OP_FCALL, OP_MCALL, OP_FCALLH, OP_MCALLH, OP_RETURN}
  {
    var n := |t.ops|;
    if op == OP_FCALL then
      Enter(t, n - arg - 1, EnterCall(m.params, t.heap, t.ops[n - arg - 1], None, t.ops[n - arg..]))
    else if op == OP_MCALL then
      Enter(t, n - arg - 2,
            EnterCall(m.params, t.heap, t.ops[n - arg - 1], Some(t.ops[n - arg - 2]), t.ops[n - arg..]))
    else if op == OP_FCALLH then
      Enter(t, n - 2, EnterNamed(m.host, m.params, t.heap, Stk(t, 2), None, Stk(t, 1)))
    else if op == OP_MCALLH then
      Enter(t, n - 3, EnterNamed(m.host, m.params, t.heap, Stk(t, 2), Some(Stk(t, 3)), Stk(t, 1)))
    else if t.callers == [] then Done(Stk(t, 1), t.heap)
    else if t.bp >= n then Stuck
    else
      var f := t.callers[|t.callers| - 1];
      Running(State(f.ip, f.code, f.env, f.bp, t.callers[..|t.callers| - 1],
                    t.ops[..t.bp] + [Stk(t, 1)], t.marks, t.heap))
  }

  function StepMark(op: nat, t: State): Status {
    var k := |t.marks|;
    if op == OP_MARK then Running(t.(marks := t.marks + [|t.ops|]))
    else if k == 0 then Stuck
    else if op == OP_UNMARK then Running(t.(marks := t.marks[..k - 1]))
    else if t.marks[k - 1] > |t.ops| then Stuck
    else if op == OP_BREAK then Running(t.(ops := t.ops[..t.marks[k - 1]]))
    else Running(t.(ops := t.ops[..t.marks[k - 1]], marks := t.marks[..k - 1]))
  }

  function StepConst(m: Image, op: nat, c: Value, t: State): Status
    requires |t.ops| >= Needs(op, 0)
    requires op in {OP_PUSHCONST, OP_LOCAL, OP_MEMBER}
  {
    if op == OP_PUSHCONST then
      if c.Code? then
        Running(Put(t, 0, [Func(|t.heap|)]).(heap := Alloc(t.heap, FuncObj(c.index, [t.env.locals] + t.env.scopes))))
      else Running(Put(t, 0, [c]))
    else if !c.Str? then Stuck
    else if op == OP_LOCAL then PutRes(t, 0, GetLocal(m.host, t.heap, t.env, c))
    else PutRes(t, 1, GetMember(t.heap, Stk(t, 1), c.s))
  }

  /** Stores take their operands off the stack and leave the stored value. */
  function StepStore(m: Image, op: nat, t: State): Status
    requires |t.ops| >= Needs(op, 0)
    requires op in {OP_SETSYM, OP_SETLOCAL, OP_SETMEMBER, OP_INSERT, OP_HAPPEND}
  {
    if op == OP_SETSYM then
      Running(Put(t, 1, []).(heap := SetSymbol(t.heap, t.env, Stk(t, 1), Stk(t, 2))))
    else if op == OP_SETLOCAL then
      Running(Put(t, 1, []).(heap := HashSet(t.heap, t.env.locals, Stk(t, 1), Stk(t, 2))))
    else if op == OP_HAPPEND then
      Running(Put(t, 2, []).(heap := PutField(t.heap, Stk(t, 3), Stk(t, 2), Stk(t, 1))))
    else
      match (if op == OP_SETMEMBER then SetMember(t.heap, Stk(t, 2), Stk(t, 1), Stk(t, 3))
             else ContainerSet(m.host, t.heap, Stk(t, 2), Stk(t, 1), Stk(t, 3)))
      case Ok(h) => Running(Put(t, 2, []).(heap := h))
      case Err(e) => Failed(e)
  }

  function StepStack(m: Image, op: nat, arg: nat, t: State): Status
    requires |t.ops| >= Needs(op, arg)
  {
    if op == OP_POP then Running(Put(t, 1, []))
    else if op == OP_DUP then Running(Put(t, 0, [Stk(t, 1)]))
    else if op == OP_DUP2 then Running(Put(t, 0, [Stk(t, 2), Stk(t, 1)]))
    else if op == OP_XCHG then Running(Put(t, 2, [Stk(t, 1), Stk(t, 2)]))
    else if op == OP_XCHG2 then Running(Put(t, 3, [Stk(t, 1), Stk(t, 3), Stk(t, 2)]))
    else if op == OP_NEG then PutRes(t, 1, ApplyUnary(m.host, Neg, Stk(t, 1)))
    else if op == OP_NOT then PutRes(t, 1, ApplyUnary(m.host, Not, Stk(t, 1)))
    else if op == OP_PUSHONE then Running(Put(t, 0, [Num(1.0)]))
    else if op == OP_PUSHZERO then Running(Put(t, 0, [Num(0.0)]))
    else if op == OP_PUSHNIL then Running(Put(t, 0, [Nil]))
    else if op == OP_PUSHEND then Running(Put(t, 0, [End]))
    else if op == OP_NEWVEC then Running(Put(t, 0, [Vec(|t.heap|)]).(heap := Alloc(t.heap, VecObj([]))))
    else if op == OP_NEWHASH then Running(Put(t, 0, [Hash(|t.heap|)]).(heap := Alloc(t.heap, HashObj(map[]))))
    else if op == OP_UNPACK then
      (match UnpackVec(t.heap, Stk(t, 1), arg)
       case Ok(vs) => Running(Put(t, 1, vs))
       case Err(e) => Failed(e))
    else if op == OP_EACH || op == OP_INDEX then
      if !Stk(t, 1).Num? || Stk(t, 1).n < 0.0 then Stuck
      else
        var i := Truncate(Stk(t, 1).n);
        match EachItem(t.heap, Stk(t, 2), i, op == OP_INDEX)
        case Err(e) => Failed(e)
        case Ok(item) =>
          if i >= |t.heap[Stk(t, 2).addr].elems| then Running(Put(t, 0, [End]))
          else Running(Put(t, 1, [Num((i + 1) as real), item]))
    else Stuck
  }

  /** `n` turns of the loop, or fewer when it stops. */
  function Steps(m: Image, n: nat, s: State): Status
    decreases n
  {
    if n == 0 then Running(s)
    else match Step(m, s)
      case Running(t) => Steps(m, n - 1, t)
      case stop => stop
  }
}
