/** What a program means: a big-step evaluator over syntax and heap, with no
    stack, addresses or jumps. Each loop iteration and each call spends one unit
    of fuel; an evaluation that needs more reports Timeout. */
module Semantics {
  import opened Basics
  import opened Values
  import opened Syntax

  /** How an evaluation ends. `Normal` lists the values it leaves, in the order
      they are produced. A break or continue carries the loop it is bound for,
      counted from the outermost loop of the function. */
  datatype Outcome =
    | Normal(vals: seq<Value>, heap: Heap)
    | Brk(loop: nat, heap: Heap)
    | Cont(loop: nat, heap: Heap)
    | Ret(val: Value, heap: Heap)
    | Fail(error: string)
    | Timeout

  /** A program: conversions, and for each function its parameters and body. */
  datatype Program = Program(host: Host, params: seq<Params>, bodies: seq<Expr>)

  function Top(o: Outcome): Value {
    if o.Normal? && o.vals != [] then o.vals[|o.vals| - 1] else Nil
  }

  function Lift(r: Res<Value>, h: Heap): Outcome {
    match r case Ok(v) => Normal([v], h) case Err(e) => Fail(e)
  }

  function LiftPair(r: Res<(Value, Heap)>): Outcome {
    match r case Ok((v, h)) => Normal([v], h) case Err(e) => Fail(e)
  }

  // ----- assignment targets -----

  /** Stores a value; `at` are the operands the target left behind. */
  function Store(lv: LValue, env: Env, h: Heap, at: seq<Value>, v: Value, host: Host): Res<Heap> {
    match lv
    case LSym(x) => Ok(SetSymbol(h, env, Name(env.names, x), v))
    case LVar(x) => Ok(HashSet(h, env.locals, Name(env.names, x), v))
    case LMember(_, f) => if |at| == 2 then SetMember(h, at[0], Name(env.names, f), v) else Err("")
    case LIndex(_, _) => if |at| == 2 then ContainerSet(host, h, at[0], at[1], v) else Err("")
  }

  /** The current value of a target, for `x op= e`. */
  function Load(lv: LValue, env: Env, h: Heap, at: seq<Value>, host: Host): Res<Value> {
    match lv
    case LSym(x) => GetLocal(host, h, env, Name(env.names, x))
    case LVar(x) => GetLocal(host, h, env, Name(env.names, x))
    case LMember(_, f) => if |at| == 2 then GetMember(h, at[0], f) else Err("")
    case LIndex(_, _) => if |at| == 2 then ContainerGet(host, h, at[0], at[1]) else Err("")
  }

  // ----- evaluation -----

  function Eval(p: Program, fuel: nat, e: Expr, env: Env, h: Heap, ctx: Ctx): (o: Outcome)
    ensures o.Normal? ==> |o.vals| == 1
    decreases fuel, e, 2
  {
    match e
    case Unary(_, _) => EvalUnary(p, fuel, e, env, h, ctx)
    case Binary(_, _, _) => EvalBinary(p, fuel, e, env, h, ctx)
    case HashAppend(_, _, _) => EvalHashAppend(p, fuel, e, env, h, ctx)
    case Member(_, _) => EvalMember(p, fuel, e, env, h, ctx)
    case And(_, _) => EvalShort(p, fuel, e, env, h, ctx)
    case Or(_, _) => EvalShort(p, fuel, e, env, h, ctx)
    case Cond(_, _, _) => EvalCond(p, fuel, e, env, h, ctx)
    case Semi(_, _) => EvalSemi(p, fuel, e, env, h, ctx)
    case Assign(_, _) => EvalPlainAssign(p, fuel, e, env, h, ctx)
    case OpAssign(_, _, _) => EvalOpAssign(p, fuel, e, env, h, ctx)
    case MultiAssign(_, _) => EvalMultiAssign(p, fuel, e, env, h, ctx)
    case Unpack(_, _) => EvalUnpack(p, fuel, e, env, h, ctx)
    case Loop(_, _, _, _) => EvalLoop(p, fuel, e, env, h, ctx)
    case ForEach(_, _, _, _, _) => EvalForEach(p, fuel, e, env, h, ctx)
    case Break(t) =>
      (match Resolve(ctx, t) case Some(j) => Brk(j, h) case None => Fail("no loop"))
    case Continue(t) =>
      (match Resolve(ctx, t) case Some(j) => Cont(j, h) case None => Fail("no loop"))
    case Return(_) => EvalReturn(p, fuel, e, env, h, ctx)
    case Call(_, _) => EvalCall(p, fuel, e, env, h, ctx)
    case MethodCall(_, _, _) => EvalMethodCall(p, fuel, e, env, h, ctx)
    case NamedCall(_, _) => EvalNamedCall(p, fuel, e, env, h, ctx)
    case NamedMethodCall(_, _, _) => EvalNamedMethodCall(p, fuel, e, env, h, ctx)
    case _ => EvalLeaf(p.host, e, env, h)
  }

  function EvalLeaf(host: Host, e: Expr, env: Env, h: Heap): (o: Outcome)
    requires IsLeaf(e)
    ensures o.Normal? ==> |o.vals| == 1
  {
    match e
    case NilLit => Normal([Nil], h)
    case NumLit(n) => Normal([Num(n)], h)
    case StrLit(s) => Normal([Name(env.names, s)], h)
    case SymLit(s) => Normal([Name(env.names, s)], h)
    case Lambda(i) => Normal([Func(|h|)], Alloc(h, FuncObj(i, [env.locals] + env.scopes)))
    case Sym(x) => Lift(GetLocal(host, h, env, Name(env.names, x)), h)
    case NewVec => Normal([Vec(|h|)], Alloc(h, VecObj([])))
    case NewHash => Normal([Hash(|h|)], Alloc(h, HashObj(map[])))
  }

  function EvalUnary(p: Program, fuel: nat, e: Expr, env: Env, h: Heap, ctx: Ctx): (o: Outcome)
    requires e.Unary?
    ensures o.Normal? ==> |o.vals| == 1
    decreases fuel, e, 1
  {
    var o := Eval(p, fuel, e.arg, env, h, ctx);
    if !o.Normal? then o else Lift(ApplyUnary(p.host, e.uop, Top(o)), o.heap)
  }

  function EvalBinary(p: Program, fuel: nat, e: Expr, env: Env, h: Heap, ctx: Ctx): (o: Outcome)
    requires e.Binary?
    ensures o.Normal? ==> |o.vals| == 1
    decreases fuel, e, 1
  {
    var o1 := Eval(p, fuel, e.left, env, h, ctx);
    if !o1.Normal? then o1 else
    var o2 := Eval(p, fuel, e.right, env, o1.heap, ctx);
    if !o2.Normal? then o2 else LiftPair(ApplyBinary(p.host, e.op, o2.heap, Top(o1), Top(o2)))
  }

  function EvalHashAppend(p: Program, fuel: nat, e: Expr, env: Env, h: Heap, ctx: Ctx): (o: Outcome)
    requires e.HashAppend?
    ensures o.Normal? ==> |o.vals| == 1
    decreases fuel, e, 1
  {
    var o1 := Eval(p, fuel, e.hash, env, h, ctx);
    if !o1.Normal? then o1 else
    var o2 := Eval(p, fuel, e.key, env, o1.heap, ctx);
    if !o2.Normal? then o2 else
    var o3 := Eval(p, fuel, e.val, env, o2.heap, ctx);
    if !o3.Normal? then o3
    else Normal([Top(o1)], PutField(o3.heap, Top(o1), Top(o2), Top(o3)))
  }

  function EvalMember(p: Program, fuel: nat, e: Expr, env: Env, h: Heap, ctx: Ctx): (o: Outcome)
    requires e.Member?
    ensures o.Normal? ==> |o.vals| == 1
    decreases fuel, e, 1
  {
    var o := Eval(p, fuel, e.obj, env, h, ctx);
    if !o.Normal? then o else Lift(GetMember(o.heap, Top(o), e.field), o.heap)
  }

  function EvalCond(p: Program, fuel: nat, e: Expr, env: Env, h: Heap, ctx: Ctx): (o: Outcome)
    requires e.Cond?
    ensures o.Normal? ==> |o.vals| == 1
    decreases fuel, e, 1
  {
    var o := Eval(p, fuel, e.test, env, h, ctx);
    if !o.Normal? then o else
    match Boolify(p.host, Top(o))
    case Err(m) => Fail(m)
    case Ok(b) => Eval(p, fuel, if b then e.thn else e.els, env, o.heap, ctx)
  }

  function EvalSemi(p: Program, fuel: nat, e: Expr, env: Env, h: Heap, ctx: Ctx): (o: Outcome)
    requires e.Semi?
    ensures o.Normal? ==> |o.vals| == 1
    decreases fuel, e, 1
  {
    var o := Eval(p, fuel, e.first, env, h, ctx);
    if !o.Normal? then o else Eval(p, fuel, e.rest, env, o.heap, ctx)
  }

  /** The right side comes before the operands of the target. */
  function EvalPlainAssign(p: Program, fuel: nat, e: Expr, env: Env, h: Heap, ctx: Ctx): (o: Outcome)
    requires e.Assign?
    ensures o.Normal? ==> |o.vals| == 1
    decreases fuel, e, 1
  {
    var o1 := Eval(p, fuel, e.rhs, env, h, ctx);
    if !o1.Normal? then o1 else EvalStore(p, fuel, e.lv, Top(o1), env, o1.heap, ctx)
  }

  function EvalMultiAssign(p: Program, fuel: nat, e: Expr, env: Env, h: Heap, ctx: Ctx): (o: Outcome)
    requires e.MultiAssign?
    ensures o.Normal? ==> |o.vals| == 1
    decreases fuel, e, 1
  {
    var o1 := EvalReverse(p, fuel, e.rvs, env, h, ctx);
    if !o1.Normal? then o1
    else if CountLV(e.lvs) != Count(e.rvs) then Fail("bad assignment count")
    else EvalAssign(p, fuel, e.lvs, o1.vals, env, o1.heap, ctx)
  }

  function EvalUnpack(p: Program, fuel: nat, e: Expr, env: Env, h: Heap, ctx: Ctx): (o: Outcome)
    requires e.Unpack?
    ensures o.Normal? ==> |o.vals| == 1
    decreases fuel, e, 1
  {
    var o1 := Eval(p, fuel, e.rhs, env, h, ctx);
    if !o1.Normal? then o1 else
    match UnpackVec(o1.heap, Top(o1), CountLV(e.lvs))
    case Err(m) => Fail(m)
    case Ok(vs) => EvalAssign(p, fuel, e.lvs, vs, env, o1.heap, ctx)
  }

  function EvalForEach(p: Program, fuel: nat, e: Expr, env: Env, h: Heap, ctx: Ctx): (o: Outcome)
    requires e.ForEach?
    ensures o.Normal? ==> |o.vals| == 1
    decreases fuel, e, 1
  {
    var o := Eval(p, fuel, e.vec, env, h, ctx);
    if !o.Normal? then o else EvalEach(p, fuel, e, Top(o), 0, env, o.heap, ctx)
  }

  function EvalReturn(p: Program, fuel: nat, e: Expr, env: Env, h: Heap, ctx: Ctx): (o: Outcome)
    requires e.Return?
    ensures o.Normal? ==> |o.vals| == 1
    decreases fuel, e, 1
  {
    var o := Eval(p, fuel, e.arg, env, h, ctx);
    if !o.Normal? then o else Ret(Top(o), o.heap)
  }

  function EvalCall(p: Program, fuel: nat, e: Expr, env: Env, h: Heap, ctx: Ctx): (o: Outcome)
    requires e.Call?
    ensures o.Normal? ==> |o.vals| == 1
    decreases fuel, e, 1
  {
    var o1 := Eval(p, fuel, e.f, env, h, ctx);
    if !o1.Normal? then o1 else
    var o2 := EvalList(p, fuel, e.args, env, o1.heap, ctx);
    if !o2.Normal? then o2 else
    Invoke(p, fuel, e, EnterCall(p.params, o2.heap, Top(o1), None, o2.vals))
  }

  /** The method is looked up before the arguments are evaluated. */
  function EvalMethodCall(p: Program, fuel: nat, e: Expr, env: Env, h: Heap, ctx: Ctx): (o: Outcome)
    requires e.MethodCall?
    ensures o.Normal? ==> |o.vals| == 1
    decreases fuel, e, 1
  {
    var o1 := Eval(p, fuel, e.obj, env, h, ctx);
    if !o1.Normal? then o1 else
    match GetMember(o1.heap, Top(o1), e.field)
    case Err(m) => Fail(m)
    case Ok(f) =>
      var o2 := EvalList(p, fuel, e.args, env, o1.heap, ctx);
      if !o2.Normal? then o2 else
      Invoke(p, fuel, e, EnterCall(p.params, o2.heap, f, Some(Top(o1)), o2.vals))
  }

  function EvalNamedCall(p: Program, fuel: nat, e: Expr, env: Env, h: Heap, ctx: Ctx): (o: Outcome)
    requires e.NamedCall?
    ensures o.Normal? ==> |o.vals| == 1
    decreases fuel, e, 1
  {
    var o1 := Eval(p, fuel, e.f, env, h, ctx);
    if !o1.Normal? then o1 else
    var o2 := Eval(p, fuel, e.named, env, o1.heap, ctx);
    if !o2.Normal? then o2 else
    Invoke(p, fuel, e, EnterNamed(p.host, p.params, o2.heap, Top(o1), None, Top(o2)))
  }

  function EvalNamedMethodCall(p: Program, fuel: nat, e: Expr, env: Env, h: Heap, ctx: Ctx): (o: Outcome)
    requires e.NamedMethodCall?
    ensures o.Normal? ==> |o.vals| == 1
    decreases fuel, e, 1
  {
    var o1 := Eval(p, fuel, e.obj, env, h, ctx);
    if !o1.Normal? then o1 else
    match GetMember(o1.heap, Top(o1), e.field)
    case Err(m) => Fail(m)
    case Ok(f) =>
      var o2 := Eval(p, fuel, e.named, env, o1.heap, ctx);
      if !o2.Normal? then o2 else
      Invoke(p, fuel, e, EnterNamed(p.host, p.params, o2.heap, f, Some(Top(o1)), Top(o2)))
  }

  /** `and` and `or` yield the left value unless the right one decides. */
  function EvalShort(p: Program, fuel: nat, e: Expr, env: Env, h: Heap, ctx: Ctx): (o: Outcome)
    requires e.And? || e.Or?
    ensures o.Normal? ==> |o.vals| == 1
    decreases fuel, e, 1
  {
    var o := Eval(p, fuel, e.left, env, h, ctx);
    if !o.Normal? then o else
    match Boolify(p.host, Top(o))
    case Err(m) => Fail(m)
    case Ok(b) => if b == e.Or? then o else Eval(p, fuel, e.right, env, o.heap, ctx)
  }

  /** Left to right. */
  function EvalList(p: Program, fuel: nat, es: Exprs, env: Env, h: Heap, ctx: Ctx): (o: Outcome)
    ensures o.Normal? ==> |o.vals| == Count(es)
    decreases fuel, es, 0
  {
    match es
    case NoExprs => Normal([], h)
    case More(e, t) =>
      var o1 := Eval(p, fuel, e, env, h, ctx);
      if !o1.Normal? then o1 else
      var o2 := EvalList(p, fuel, t, env, o1.heap, ctx);
      if !o2.Normal? then o2 else Normal(o1.vals + o2.vals, o2.heap)
  }

  /** Right to left: the values of a parallel assignment. */
  function EvalReverse(p: Program, fuel: nat, es: Exprs, env: Env, h: Heap, ctx: Ctx): (o: Outcome)
    ensures o.Normal? ==> |o.vals| == Count(es)
    decreases fuel, es, 0
  {
    match es
    case NoExprs => Normal([], h)
    case More(e, t) =>
      var o1 := EvalReverse(p, fuel, t, env, h, ctx);
      if !o1.Normal? then o1 else
      var o2 := Eval(p, fuel, e, env, o1.heap, ctx);
      if !o2.Normal? then o2 else Normal(o1.vals + o2.vals, o2.heap)
  }

  /** The operands of a target: the symbol's name, the object and field, or the
      container and key. */
  function EvalTarget(p: Program, fuel: nat, lv: LValue, env: Env, h: Heap, ctx: Ctx): (o: Outcome)
    ensures o.Normal? ==> |o.vals| == Arity(lv)
    decreases fuel, lv, 0
  {
    match lv
    case LSym(x) => Normal([Name(env.names, x)], h)
    case LVar(x) => Normal([Name(env.names, x)], h)
    case LMember(obj, f) =>
      var o := Eval(p, fuel, obj, env, h, ctx);
      if !o.Normal? then o else Normal(o.vals + [Name(env.names, f)], o.heap)
    case LIndex(box, key) =>
      var o1 := Eval(p, fuel, box, env, h, ctx);
      if !o1.Normal? then o1 else
      var o2 := Eval(p, fuel, key, env, o1.heap, ctx);
      if !o2.Normal? then o2 else Normal(o1.vals + o2.vals, o2.heap)
  }

  function Arity(lv: LValue): nat { if lv.LSym? || lv.LVar? then 1 else 2 }

  /** One assignment: the target's operands, then the store. */
  function EvalStore(p: Program, fuel: nat, lv: LValue, v: Value, env: Env, h: Heap, ctx: Ctx): (o: Outcome)
    ensures o.Normal? ==> |o.vals| == 1
    decreases fuel, lv, 1
  {
    var o := EvalTarget(p, fuel, lv, env, h, ctx);
    if !o.Normal? then o else
    match Store(lv, env, o.heap, o.vals, v, p.host)
    case Err(m) => Fail(m)
    case Ok(h1) => Normal([v], h1)
  }

  /** Stores the last of `vals` in the first target, the one before it in the
      second, and so on; the value is the one stored last. */
  function EvalAssign(p: Program, fuel: nat, lvs: LValues, vals: seq<Value>, env: Env, h: Heap, ctx: Ctx): (o: Outcome)
    requires |vals| == CountLV(lvs)
    ensures o.Normal? ==> |o.vals| == 1
    decreases fuel, lvs, 0
  {
    var o := EvalStore(p, fuel, lvs.lv, vals[|vals| - 1], env, h, ctx);
    match lvs
    case OneLV(_) => o
    case MoreLV(_, rest) =>
      if !o.Normal? then o else EvalAssign(p, fuel, rest, vals[..|vals| - 1], env, o.heap, ctx)
  }

  /** `lv op= e` reads the target before it evaluates `e`. */
  function EvalOpAssign(p: Program, fuel: nat, e: Expr, env: Env, h: Heap, ctx: Ctx): (o: Outcome)
    requires e.OpAssign?
    ensures o.Normal? ==> |o.vals| == 1
    decreases fuel, e, 1
  {
    var o1 := EvalTarget(p, fuel, e.lv, env, h, ctx);
    if !o1.Normal? then o1 else
    match Load(e.lv, env, o1.heap, o1.vals, p.host)
    case Err(m) => Fail(m)
    case Ok(x) =>
      var o2 := Eval(p, fuel, e.rhs, env, o1.heap, ctx);
      if !o2.Normal? then o2 else
      match ApplyBinary(p.host, e.op, o2.heap, x, Top(o2))
      case Err(m) => Fail(m)
      case Ok((y, h3)) =>
        match Store(e.lv, env, h3, o1.vals, y, p.host)
        case Err(m) => Fail(m)
        case Ok(h4) => Normal([y], h4)
  }

  /** One more test of a `while` or `for` loop; the loop's value is nil. */
  function EvalLoop(p: Program, fuel: nat, e: Expr, env: Env, h: Heap, ctx: Ctx): (o: Outcome)
    requires e.Loop?
    ensures o.Normal? ==> |o.vals| == 1
    decreases fuel, e, 1
  {
    if fuel == 0 then Timeout else
    var o1 := Eval(p, fuel, e.test, env, h, ctx + [Scope(e.tag, false)]);
    if !o1.Normal? then o1 else
    match Boolify(p.host, Top(o1))
    case Err(m) => Fail(m)
    case Ok(false) => Normal([Nil], o1.heap)
    case Ok(true) =>
      var o2 := Eval(p, fuel, e.body, env, o1.heap, ctx + [Scope(e.tag, true)]);
      if o2.Normal? || o2 == Cont(|ctx|, HeapOf(o2)) then EvalUpdate(p, fuel, e, env, HeapOf(o2), ctx)
      else if o2 == Brk(|ctx|, HeapOf(o2)) then Normal([Nil], HeapOf(o2))
      else o2
  }

  function HeapOf(o: Outcome): Heap {
    if o.Fail? || o.Timeout? then [] else o.heap
  }

  /** The update of a `for` loop, then the next test. A continue in the update
      runs the update again. */
  function EvalUpdate(p: Program, fuel: nat, e: Expr, env: Env, h: Heap, ctx: Ctx): (o: Outcome)
    requires e.Loop?
    ensures o.Normal? ==> |o.vals| == 1
    decreases fuel, e, 0
  {
    if fuel == 0 then Timeout else
    match e.update
    case None => EvalLoop(p, fuel - 1, e, env, h, ctx)
    case Some(u) =>
      var o1 := Eval(p, fuel, u, env, h, ctx + [Scope(e.tag, true)]);
      if o1.Normal? then EvalLoop(p, fuel - 1, e, env, o1.heap, ctx)
      else if o1 == Cont(|ctx|, HeapOf(o1)) then EvalUpdate(p, fuel - 1, e, env, o1.heap, ctx)
      else if o1 == Brk(|ctx|, HeapOf(o1)) then Normal([Nil], o1.heap)
      else o1
  }

  /** The rest of a `foreach` or `forindex` from element `i` of the vector, whose
      length is looked up again each time. The loop's value is the vector. */
  function EvalEach(p: Program, fuel: nat, e: Expr, vec: Value, i: nat, env: Env, h: Heap, ctx: Ctx): (o: Outcome)
    requires e.ForEach?
    ensures o.Normal? ==> |o.vals| == 1
    decreases fuel, e, 0
  {
    if fuel == 0 then Timeout else
    match EachItem(h, vec, i, e.useIndex)
    case Err(m) => Fail(m)
    case Ok(item) =>
      if item == End then Normal([vec], h) else
      var o1 := EvalStore(p, fuel, e.lv, item, env, h, ctx + [Scope(e.tag, false)]);
      if !o1.Normal? then o1 else
      var o2 := Eval(p, fuel, e.body, env, o1.heap, ctx + [Scope(e.tag, true)]);
      if o2.Normal? || o2 == Cont(|ctx|, HeapOf(o2)) then EvalEach(p, fuel - 1, e, vec, i + 1, env, HeapOf(o2), ctx)
      else if o2 == Brk(|ctx|, HeapOf(o2)) then Normal([vec], HeapOf(o2))
      else o2
  }

  /** Runs a function body; falling off its end returns its last value. The call
      expression is there for the termination argument only. */
  function Invoke(p: Program, fuel: nat, ghost call: Expr, r: Res<Entry>): (o: Outcome)
    ensures o.Normal? ==> |o.vals| == 1
    decreases fuel, call, 0
  {
    match r
    case Err(m) => Fail(m)
    case Ok(en) =>
      if fuel == 0 then Timeout
      else if en.code >= |p.bodies| then Fail("no such function")
      else
        var o := Eval(p, fuel - 1, p.bodies[en.code], en.env, en.heap, []);
        match o
        case Normal(_, _) => o
        case Ret(v, h) => Normal([v], h)
        case Brk(_, _) => Fail("no loop")
        case Cont(_, _) => Fail("no loop")
        case _ => o
  }
}
