/** Where the code of an expression lies and what it looks like: `Len` words from
    an address on, holding the words that `Emitted` describes. */
module Layout {
  import opened Basics
  import opened Values
  import opened Syntax
  import opened Machine

  /** The jump targets of an enclosing loop. */
  datatype Target = Target(breakIP: nat, contIP: nat)

  type Targets = seq<Target>

  /** The targets of a loop whose header is being generated. */
  const PENDING := Target(0xffffff, 0xffffff)

  function BinaryCode(op: BinOp): nat {
    match op
    case Mul => OP_MUL case Plus => OP_PLUS case Minus => OP_MINUS case Div => OP_DIV
    case Cat => OP_CAT case Lt => OP_LT case Lte => OP_LTE case Gt => OP_GT case Gte => OP_GTE
    case Eq => OP_EQ case Neq => OP_NEQ case Extract => OP_EXTRACT case Append => OP_VAPPEND
  }

  function UnaryCode(op: UnOp): nat { if op == Not then OP_NOT else OP_NEG }

  // ----- lengths -----

  function NumLen(n: real): nat { if n == 1.0 || n == 0.0 then 1 else 2 }

  function JumpLen(ctx: Ctx, target: Option<string>): nat {
    match Resolve(ctx, target) case Some(j) => |ctx| - j + 2 case None => 2
  }

  function LeafLen(e: Expr): nat
    requires IsLeaf(e)
  {
    if e.NumLit? then NumLen(e.n) else if e.NilLit? || e.NewVec? || e.NewHash? then 1 else 2
  }

  function Len(e: Expr, ctx: Ctx): nat
    decreases e, 1
  {
    match e
    case NilLit => 1
    case NumLit(n) => NumLen(n)
    case StrLit(_) => 2
    case SymLit(_) => 2
    case Lambda(_) => 2
    case Sym(_) => 2
    case NewVec => 1
    case NewHash => 1
    case Unary(_, a) => if Folds(e) then NumLen(-a.n) else Len(a, ctx) + 1
    case Binary(_, l, r) => Len(l, ctx) + Len(r, ctx) + 1
    case HashAppend(h, k, v) => Len(h, ctx) + Len(k, ctx) + Len(v, ctx) + 1
    case Member(o, _) => Len(o, ctx) + 2
    case And(l, r) => Len(l, ctx) + 3 + Len(r, ctx)
    case Or(l, r) => Len(l, ctx) + 3 + Len(r, ctx)
    case Cond(t, a, b) => Len(t, ctx) + Len(a, ctx) + Len(b, ctx) + 4
    case Semi(a, b) => Len(a, ctx) + 1 + Len(b, ctx)
    case Assign(lv, r) => Len(r, ctx) + LenTarget(lv, ctx) + 1
    case OpAssign(_, lv, r) => LenTarget(lv, ctx) + LoadLen(lv) + Len(r, ctx) + 3
    case MultiAssign(lvs, rvs) => LenList(rvs, ctx) + LenTargets(lvs, ctx)
    case Unpack(lvs, r) => Len(r, ctx) + 2 + LenTargets(lvs, ctx)
    case Loop(tag, t, u, b) => 1 + Len(t, Header(e, ctx)) + 2 + LoopLen(e, ctx)
    case ForEach(tag, _, lv, v, b) =>
      Len(v, ctx) + 5 + LenTarget(lv, Header(e, ctx)) + 2 + LoopLen(e, ctx) + 2
    case Break(t) => JumpLen(ctx, t) + 1
    case Continue(t) => JumpLen(ctx, t)
    case Return(a) => Len(a, ctx) + |ctx| + 1
    case Call(f, args) => Len(f, ctx) + LenList(args, ctx) + 2
    case MethodCall(o, _, args) => Len(o, ctx) + 3 + LenList(args, ctx) + 2
    case NamedCall(f, h) => Len(f, ctx) + Len(h, ctx) + 1
    case NamedMethodCall(o, _, h) => Len(o, ctx) + 3 + Len(h, ctx) + 1
  }

  /** A number that is negated while the code is generated. */
  predicate Folds(e: Expr) { e.Unary? && e.uop == Negate && e.arg.NumLit? }

  predicate IsLoop(e: Expr) { e.Loop? || e.ForEach? }

  /** Inside the body and the update of a loop. */
  function Inside(e: Expr, ctx: Ctx): Ctx
    requires IsLoop(e)
  {
    ctx + [Scope(e.tag, true)]
  }

  /** Inside the header of a loop. */
  function Header(e: Expr, ctx: Ctx): Ctx
    requires IsLoop(e)
  {
    ctx + [Scope(e.tag, false)]
  }

  /** Well-formedness of what a loop's end generates. */
  predicate LoopWellFormed(e: Expr, ctx: Ctx)
    requires IsLoop(e)
  {
    && WellFormed(e.body, Inside(e, ctx))
    && (e.Loop? && e.update.Some? ==> WellFormed(e.update.value, Inside(e, ctx)))
  }

  function UpdateLen(e: Expr, ctx: Ctx): nat
    requires IsLoop(e)
    decreases e, 0, 0
  {
    if e.Loop? && e.update.Some? then Len(e.update.value, Inside(e, ctx)) + 1 else 0
  }

  /** From the jump over the continue jump up to the nil the loop leaves. */
  function LoopLen(e: Expr, ctx: Ctx): nat
    requires IsLoop(e)
    decreases e, 0, 1
  {
    4 + Len(e.body, Inside(e, ctx)) + 1 + UpdateLen(e, ctx) + 4
  }

  function LenList(es: Exprs, ctx: Ctx): nat
    decreases es
  {
    match es case NoExprs => 0 case More(e, t) => Len(e, ctx) + LenList(t, ctx)
  }

  function LenTarget(lv: LValue, ctx: Ctx): nat
    decreases lv
  {
    match lv
    case LMember(o, _) => Len(o, ctx) + 2
    case LIndex(b, k) => Len(b, ctx) + Len(k, ctx)
    case _ => 2
  }

  /** Stores into each target, with a pop between two stores. */
  function LenTargets(lvs: LValues, ctx: Ctx): nat
    decreases lvs
  {
    match lvs
    case OneLV(lv) => LenTarget(lv, ctx) + 1
    case MoreLV(lv, rest) => LenTarget(lv, ctx) + 2 + LenTargets(rest, ctx)
  }

  /** Every expression takes at least one word. */
  lemma SomeCode(e: Expr, ctx: Ctx)
    ensures Len(e, ctx) > 0
  {
  }

  function LoadLen(lv: LValue): nat { if lv.LMember? then 4 else 2 }

  function StoreCode(lv: LValue): nat {
    match lv
    case LSym(_) => OP_SETSYM
    case LVar(_) => OP_SETLOCAL
    case LMember(_, _) => OP_SETMEMBER
    case LIndex(_, _) => OP_INSERT
  }

  // ----- code words -----

  /** A single-word instruction at an address. */
  predicate Op(c: CodeObj, at: nat, op: nat) { at < |c.words| && c.words[at] == op }

  predicate OpArg(c: CodeObj, at: nat, op: nat, arg: nat) {
    at + 1 < |c.words| && c.words[at] == op && c.words[at + 1] == arg
  }

  /** An instruction whose argument indexes the constant `v`; a string is told by its text. */
  predicate OpConst(c: CodeObj, at: nat, op: nat, v: Value) {
    && at + 1 < |c.words| && c.words[at] == op && c.words[at + 1] < |c.consts|
    && Key(c.consts[c.words[at + 1]]) == Key(v)
  }

  /** The strings among the constants are the objects that `names` tells. */
  ghost predicate Shares(c: CodeObj, names: string -> Ident) {
    forall k :: 0 <= k < |c.consts| && c.consts[k].Str? ==> c.consts[k].id == names(c.consts[k].s)
  }

  predicate OpRun(c: CodeObj, at: nat, op: nat, n: nat) {
    at + n <= |c.words| && forall i :: at <= i < at + n ==> c.words[i] == op
  }

  predicate NumAt(c: CodeObj, at: nat, n: real) {
    if n == 1.0 then Op(c, at, OP_PUSHONE)
    else if n == 0.0 then Op(c, at, OP_PUSHZERO)
    else OpConst(c, at, OP_PUSHCONST, Num(n))
  }

  /** Pop marks down to the target loop, then restore its operand height. */
  predicate Unwind(c: CodeObj, at: nat, levels: nat) {
    levels > 0 && OpRun(c, at, OP_BREAK2, levels - 1) && Op(c, at + levels - 1, OP_BREAK)
  }

  predicate LoadAt(lv: LValue, c: CodeObj, at: nat) {
    match lv
    case LSym(x) => OpConst(c, at, OP_LOCAL, Text(x))
    case LVar(x) => OpConst(c, at, OP_LOCAL, Text(x))
    case LMember(_, f) => Op(c, at, OP_DUP2) && Op(c, at + 1, OP_POP) && OpConst(c, at + 2, OP_MEMBER, Text(f))
    case LIndex(_, _) => Op(c, at, OP_DUP2) && Op(c, at + 1, OP_EXTRACT)
  }

  /** The code of `e` lies at `at`. `tg` are the jump targets of the enclosing
      loops; they matter for the open ones only. */
  ghost predicate Emitted(e: Expr, ctx: Ctx, tg: Targets, c: CodeObj, at: nat)
    requires |ctx| == |tg|
    decreases e, 1
  {
    match e
    case Unary(_, _) => EmittedUnary(e, ctx, tg, c, at)
    case Binary(_, _, _) => EmittedBinary(e, ctx, tg, c, at)
    case HashAppend(_, _, _) => EmittedHashAppend(e, ctx, tg, c, at)
    case Member(_, _) => EmittedMember(e, ctx, tg, c, at)
    case Cond(_, _, _) => EmittedCond(e, ctx, tg, c, at)
    case Semi(_, _) => EmittedSemi(e, ctx, tg, c, at)
    case Assign(_, _) => EmittedAssign(e, ctx, tg, c, at)
    case OpAssign(_, _, _) => EmittedOpAssign(e, ctx, tg, c, at)
    case MultiAssign(_, _) => EmittedMultiAssign(e, ctx, tg, c, at)
    case Unpack(_, _) => EmittedUnpack(e, ctx, tg, c, at)
    case Loop(_, _, _, _) => EmittedWhile(e, ctx, tg, c, at)
    case ForEach(_, _, _, _, _) => EmittedForEach(e, ctx, tg, c, at)
    case Break(_) => EmittedBreak(e, ctx, tg, c, at)
    case Continue(_) => EmittedContinue(e, ctx, tg, c, at)
    case Return(_) => EmittedReturn(e, ctx, tg, c, at)
    case Call(_, _) => EmittedCall(e, ctx, tg, c, at)
    case MethodCall(_, _, _) => EmittedMethodCall(e, ctx, tg, c, at)
    case NamedCall(_, _) => EmittedNamedCall(e, ctx, tg, c, at)
    case NamedMethodCall(_, _, _) => EmittedNamedMethodCall(e, ctx, tg, c, at)
    case And(_, _) => EmittedShort(e, ctx, tg, c, at)
    case Or(_, _) => EmittedShort(e, ctx, tg, c, at)
    case _ => EmittedLeaf(e, c, at)
  }

  ghost predicate EmittedLeaf(e: Expr, c: CodeObj, at: nat)
    requires IsLeaf(e)
  {
    match e
    case NilLit => Op(c, at, OP_PUSHNIL)
    case NumLit(n) => NumAt(c, at, n)
    case StrLit(s) => OpConst(c, at, OP_PUSHCONST, Text(s))
    case SymLit(s) => OpConst(c, at, OP_PUSHCONST, Text(s))
    case Lambda(i) => OpConst(c, at, OP_PUSHCONST, Code(i))
    case Sym(x) => OpConst(c, at, OP_LOCAL, Text(x))
    case NewVec => Op(c, at, OP_NEWVEC)
    case NewHash => Op(c, at, OP_NEWHASH)
  }

  ghost predicate EmittedUnary(e: Expr, ctx: Ctx, tg: Targets, c: CodeObj, at: nat)
    requires e.Unary? && |ctx| == |tg|
    decreases e, 0
  {
    if Folds(e) then NumAt(c, at, -e.arg.n)
    else Emitted(e.arg, ctx, tg, c, at) && Op(c, at + Len(e.arg, ctx), UnaryCode(e.uop))
  }

  ghost predicate EmittedBinary(e: Expr, ctx: Ctx, tg: Targets, c: CodeObj, at: nat)
    requires e.Binary? && |ctx| == |tg|
    decreases e, 0
  {
    var r0 := at + Len(e.left, ctx);
    && Emitted(e.left, ctx, tg, c, at) && Emitted(e.right, ctx, tg, c, r0)
    && Op(c, r0 + Len(e.right, ctx), BinaryCode(e.op))
  }

  ghost predicate EmittedHashAppend(e: Expr, ctx: Ctx, tg: Targets, c: CodeObj, at: nat)
    requires e.HashAppend? && |ctx| == |tg|
    decreases e, 0
  {
    var k0 := at + Len(e.hash, ctx);
    var v0 := k0 + Len(e.key, ctx);
    && Emitted(e.hash, ctx, tg, c, at) && Emitted(e.key, ctx, tg, c, k0) && Emitted(e.val, ctx, tg, c, v0)
    && Op(c, v0 + Len(e.val, ctx), OP_HAPPEND)
  }

  ghost predicate EmittedMember(e: Expr, ctx: Ctx, tg: Targets, c: CodeObj, at: nat)
    requires e.Member? && |ctx| == |tg|
    decreases e, 0
  {
    Emitted(e.obj, ctx, tg, c, at) && OpConst(c, at + Len(e.obj, ctx), OP_MEMBER, Text(e.field))
  }

  ghost predicate EmittedShort(e: Expr, ctx: Ctx, tg: Targets, c: CodeObj, at: nat)
    requires (e.And? || e.Or?) && |ctx| == |tg|
    decreases e, 0
  {
    var r0 := at + Len(e.left, ctx) + 3;
    && Emitted(e.left, ctx, tg, c, at)
    && OpArg(c, r0 - 3, if e.And? then OP_JIFNOT else OP_JIFTRUE, r0 + Len(e.right, ctx))
    && Op(c, r0 - 1, OP_POP) && Emitted(e.right, ctx, tg, c, r0)
  }

  ghost predicate EmittedCond(e: Expr, ctx: Ctx, tg: Targets, c: CodeObj, at: nat)
    requires e.Cond? && |ctx| == |tg|
    decreases e, 0
  {
    var a0 := at + Len(e.test, ctx) + 2;
    var b0 := a0 + Len(e.thn, ctx) + 2;
    && Emitted(e.test, ctx, tg, c, at) && OpArg(c, a0 - 2, OP_JIFNOTPOP, b0)
    && Emitted(e.thn, ctx, tg, c, a0) && OpArg(c, b0 - 2, OP_JMP, b0 + Len(e.els, ctx))
    && Emitted(e.els, ctx, tg, c, b0)
  }

  ghost predicate EmittedSemi(e: Expr, ctx: Ctx, tg: Targets, c: CodeObj, at: nat)
    requires e.Semi? && |ctx| == |tg|
    decreases e, 0
  {
    var b0 := at + Len(e.first, ctx) + 1;
    Emitted(e.first, ctx, tg, c, at) && Op(c, b0 - 1, OP_POP) && Emitted(e.rest, ctx, tg, c, b0)
  }

  ghost predicate EmittedAssign(e: Expr, ctx: Ctx, tg: Targets, c: CodeObj, at: nat)
    requires e.Assign? && |ctx| == |tg|
    decreases e, 0
  {
    Emitted(e.rhs, ctx, tg, c, at) && EmittedStore(e.lv, ctx, tg, c, at + Len(e.rhs, ctx))
  }

  ghost predicate EmittedOpAssign(e: Expr, ctx: Ctx, tg: Targets, c: CodeObj, at: nat)
    requires e.OpAssign? && |ctx| == |tg|
    decreases e, 0
  {
    var l0 := at + LenTarget(e.lv, ctx);
    var r0 := l0 + LoadLen(e.lv);
    var op0 := r0 + Len(e.rhs, ctx);
    && EmittedTarget(e.lv, ctx, tg, c, at) && LoadAt(e.lv, c, l0) && Emitted(e.rhs, ctx, tg, c, r0)
    && Op(c, op0, BinaryCode(e.op))
    && Op(c, op0 + 1, if e.lv.LSym? || e.lv.LVar? then OP_XCHG else OP_XCHG2)
    && Op(c, op0 + 2, StoreCode(e.lv))
  }

  ghost predicate EmittedMultiAssign(e: Expr, ctx: Ctx, tg: Targets, c: CodeObj, at: nat)
    requires e.MultiAssign? && |ctx| == |tg|
    decreases e, 0
  {
    && EmittedReverse(e.rvs, ctx, tg, c, at)
    && EmittedTargets(e.lvs, ctx, tg, c, at + LenList(e.rvs, ctx))
  }

  ghost predicate EmittedUnpack(e: Expr, ctx: Ctx, tg: Targets, c: CodeObj, at: nat)
    requires e.Unpack? && |ctx| == |tg|
    decreases e, 0
  {
    var u0 := at + Len(e.rhs, ctx);
    && Emitted(e.rhs, ctx, tg, c, at) && OpArg(c, u0, OP_UNPACK, CountLV(e.lvs))
    && EmittedTargets(e.lvs, ctx, tg, c, u0 + 2)
  }

  ghost predicate EmittedWhile(e: Expr, ctx: Ctx, tg: Targets, c: CodeObj, at: nat)
    requires e.Loop? && |ctx| == |tg|
    decreases e, 0, 2
  {
    var j := at + 1 + Len(e.test, Header(e, ctx));
    && Op(c, at, OP_MARK)
    && Emitted(e.test, Header(e, ctx), tg + [PENDING], c, at + 1)
    && EmittedLoop(e, OP_JIFNOTPOP, ctx, tg, c, at + 1, j, j + 2)
  }

  /** A `foreach` up to its body: the vector, a zero index, the mark, and at `top`
      the fetch of an element, the exit jump, and the assignment. */
  ghost predicate EmittedEachHeader(e: Expr, ctx: Ctx, tg: Targets, c: CodeObj, at: nat, top: nat)
    requires e.ForEach? && |ctx| == |tg|
    decreases e, 0, 0
  {
    && top == at + Len(e.vec, ctx) + 2
    && Emitted(e.vec, ctx, tg, c, at) && Op(c, top - 2, OP_PUSHZERO) && Op(c, top - 1, OP_MARK)
    && Op(c, top, if e.useIndex then OP_INDEX else OP_EACH)
    && EmittedStore(e.lv, Header(e, ctx), tg + [PENDING], c, top + 3)
    && Op(c, top + 4 + LenTarget(e.lv, Header(e, ctx)), OP_POP)
  }

  ghost predicate EmittedForEach(e: Expr, ctx: Ctx, tg: Targets, c: CodeObj, at: nat)
    requires e.ForEach? && |ctx| == |tg|
    decreases e, 0, 2
  {
    var top := at + Len(e.vec, ctx) + 2;
    var b0 := top + 5 + LenTarget(e.lv, Header(e, ctx));
    var end := b0 + LoopLen(e, ctx);
    && EmittedEachHeader(e, ctx, tg, c, at, top)
    && EmittedLoop(e, OP_JIFEND, ctx, tg, c, top, top + 1, b0)
    && Op(c, end, OP_POP) && Op(c, end + 1, OP_POP)
  }

  ghost predicate EmittedBreak(e: Expr, ctx: Ctx, tg: Targets, c: CodeObj, at: nat)
    requires e.Break? && |ctx| == |tg|
    decreases e, 0
  {
    match Resolve(ctx, e.target)
    case None => false
    case Some(j) =>
      var n := |ctx| - j;
      Unwind(c, at, n) && Op(c, at + n, OP_PUSHEND) && OpArg(c, at + n + 1, OP_JMP, tg[j].breakIP)
  }

  ghost predicate EmittedContinue(e: Expr, ctx: Ctx, tg: Targets, c: CodeObj, at: nat)
    requires e.Continue? && |ctx| == |tg|
    decreases e, 0
  {
    match Resolve(ctx, e.target)
    case None => false
    case Some(j) =>
      var n := |ctx| - j;
      Unwind(c, at, n) && OpArg(c, at + n, OP_JMP, tg[j].contIP)
  }

  ghost predicate EmittedReturn(e: Expr, ctx: Ctx, tg: Targets, c: CodeObj, at: nat)
    requires e.Return? && |ctx| == |tg|
    decreases e, 0
  {
    var u0 := at + Len(e.arg, ctx);
    Emitted(e.arg, ctx, tg, c, at) && OpRun(c, u0, OP_UNMARK, |ctx|) && Op(c, u0 + |ctx|, OP_RETURN)
  }

  ghost predicate EmittedCall(e: Expr, ctx: Ctx, tg: Targets, c: CodeObj, at: nat)
    requires e.Call? && |ctx| == |tg|
    decreases e, 0
  {
    var a0 := at + Len(e.f, ctx);
    && Emitted(e.f, ctx, tg, c, at) && EmittedList(e.args, ctx, tg, c, a0)
    && OpArg(c, a0 + LenList(e.args, ctx), OP_FCALL, Count(e.args))
  }

  ghost predicate EmittedMethodCall(e: Expr, ctx: Ctx, tg: Targets, c: CodeObj, at: nat)
    requires e.MethodCall? && |ctx| == |tg|
    decreases e, 0
  {
    var a0 := at + Len(e.obj, ctx) + 3;
    && EmittedMethod(e.obj, e.field, ctx, tg, c, at) && EmittedList(e.args, ctx, tg, c, a0)
    && OpArg(c, a0 + LenList(e.args, ctx), OP_MCALL, Count(e.args))
  }

  ghost predicate EmittedNamedCall(e: Expr, ctx: Ctx, tg: Targets, c: CodeObj, at: nat)
    requires e.NamedCall? && |ctx| == |tg|
    decreases e, 0
  {
    var h0 := at + Len(e.f, ctx);
    && Emitted(e.f, ctx, tg, c, at) && Emitted(e.named, ctx, tg, c, h0)
    && Op(c, h0 + Len(e.named, ctx), OP_FCALLH)
  }

  ghost predicate EmittedNamedMethodCall(e: Expr, ctx: Ctx, tg: Targets, c: CodeObj, at: nat)
    requires e.NamedMethodCall? && |ctx| == |tg|
    decreases e, 0
  {
    var h0 := at + Len(e.obj, ctx) + 3;
    && EmittedMethod(e.obj, e.field, ctx, tg, c, at) && Emitted(e.named, ctx, tg, c, h0)
    && Op(c, h0 + Len(e.named, ctx), OP_MCALLH)
  }

  /** The continue jump, with a jump over it, and the body, its value dropped. */
  ghost predicate EmittedBody(e: Expr, inside: Ctx, inner: Targets, c: CodeObj, b0: nat)
    requires IsLoop(e) && |inside| == |inner|
    decreases e, 0, 0
  {
    var u0 := b0 + 4 + Len(e.body, inside) + 1;
    && OpArg(c, b0, OP_JMP, b0 + 4)
    && OpArg(c, b0 + 2, OP_JMP, u0)
    && Emitted(e.body, inside, inner, c, b0 + 4)
    && Op(c, u0 - 1, OP_POP)
  }

  /** The update of a `for` loop, nothing in the other loops. */
  ghost predicate EmittedUpdate(e: Expr, inside: Ctx, inner: Targets, c: CodeObj, at: nat)
    requires IsLoop(e) && |inside| == |inner|
    decreases e, 0, 0
  {
    e.Loop? && e.update.Some? ==>
      Emitted(e.update.value, inside, inner, c, at) && Op(c, at + Len(e.update.value, inside), OP_POP)
  }

  /** The part shared by all loops. The exit jump is at `j`, `top` is where an
      iteration starts, and `b0` is where the jump over the continue jump lies. A
      break lands on the exit jump, a continue on the continue jump. */
  ghost predicate EmittedLoop(e: Expr, exit: nat, ctx: Ctx, tg: Targets, c: CodeObj, top: nat, j: nat, b0: nat)
    requires IsLoop(e) && |ctx| == |tg|
    decreases e, 0, 1
  {
    var inner := tg + [Target(j, b0 + 2)];
    var u0 := b0 + 4 + Len(e.body, Inside(e, ctx)) + 1;
    var end := u0 + UpdateLen(e, ctx) + 2;
    && OpArg(c, j, exit, end)
    && EmittedBody(e, Inside(e, ctx), inner, c, b0)
    && EmittedUpdate(e, Inside(e, ctx), inner, c, u0)
    && OpArg(c, end - 2, OP_JMPLOOP, top)
    && Op(c, end, OP_UNMARK)
    && Op(c, end + 1, OP_PUSHNIL)
  }

  /** The receiver, and above it the method found in it. */
  ghost predicate EmittedMethod(o: Expr, field: string, ctx: Ctx, tg: Targets, c: CodeObj, at: nat)
    requires |ctx| == |tg|
    decreases o, 2
  {
    var d0 := at + Len(o, ctx);
    Emitted(o, ctx, tg, c, at) && Op(c, d0, OP_DUP) && OpConst(c, d0 + 1, OP_MEMBER, Text(field))
  }

  ghost predicate EmittedList(es: Exprs, ctx: Ctx, tg: Targets, c: CodeObj, at: nat)
    requires |ctx| == |tg|
    decreases es, 0
  {
    match es
    case NoExprs => true
    case More(e, t) => Emitted(e, ctx, tg, c, at) && EmittedList(t, ctx, tg, c, at + Len(e, ctx))
  }

  ghost predicate EmittedReverse(es: Exprs, ctx: Ctx, tg: Targets, c: CodeObj, at: nat)
    requires |ctx| == |tg|
    decreases es, 0
  {
    match es
    case NoExprs => true
    case More(e, t) => EmittedReverse(t, ctx, tg, c, at) && Emitted(e, ctx, tg, c, at + LenList(t, ctx))
  }

  /** The operands of an assignment target. */
  ghost predicate EmittedTarget(lv: LValue, ctx: Ctx, tg: Targets, c: CodeObj, at: nat)
    requires |ctx| == |tg|
    decreases lv, 0
  {
    match lv
    case LSym(x) => OpConst(c, at, OP_PUSHCONST, Text(x))
    case LVar(x) => OpConst(c, at, OP_PUSHCONST, Text(x))
    case LMember(o, f) => Emitted(o, ctx, tg, c, at) && OpConst(c, at + Len(o, ctx), OP_PUSHCONST, Text(f))
    case LIndex(b, k) => Emitted(b, ctx, tg, c, at) && Emitted(k, ctx, tg, c, at + Len(b, ctx))
  }

  ghost predicate EmittedStore(lv: LValue, ctx: Ctx, tg: Targets, c: CodeObj, at: nat)
    requires |ctx| == |tg|
    decreases lv, 1
  {
    EmittedTarget(lv, ctx, tg, c, at) && Op(c, at + LenTarget(lv, ctx), StoreCode(lv))
  }

  ghost predicate EmittedTargets(lvs: LValues, ctx: Ctx, tg: Targets, c: CodeObj, at: nat)
    requires |ctx| == |tg|
    decreases lvs, 0
  {
    match lvs
    case OneLV(lv) => EmittedStore(lv, ctx, tg, c, at)
    case MoreLV(lv, rest) =>
      var p0 := at + LenTarget(lv, ctx) + 1;
      EmittedStore(lv, ctx, tg, c, at) && Op(c, p0, OP_POP) && EmittedTargets(rest, ctx, tg, c, p0 + 1)
  }
}
