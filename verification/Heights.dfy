/** Static heights: at every instruction of a function's code, how many operands
    and which marks a call of it has on the stacks, read off the layout. Argument
    words have no height. `Checked` is what a verifier of the code would test. */
module Heights {
  import opened Basics
  import opened Values
  import opened Syntax
  import opened Machine
  import opened Layout

  /** The operands of this call, and the heights its loops have marked, counted
      from where the call began. */
  datatype Stack = Stack(ops: nat, marks: seq<nat>)

  function Up(st: Stack, n: nat): Stack { st.(ops := st.ops + n) }

  /** Inside a loop that starts here. */
  function Marked(st: Stack): Stack { st.(marks := st.marks + [st.ops]) }

  /** After `k` marks have been given back, each with its height restored. */
  function Cut(st: Stack, k: nat): Stack
    requires k <= |st.marks|
  {
    if k == 0 then st else Stack(st.marks[|st.marks| - k], st.marks[..|st.marks| - k])
  }

  /** Where a break or continue of loop `j` lands, before the end token. */
  function Landing(st: Stack, j: nat): Stack
    requires j < |st.marks|
  {
    Stack(st.marks[j], st.marks[..j + 1])
  }

  function Own(i: nat, at: nat, st: Stack): Option<Stack> { if i == at then Some(st) else None }

  /** The height at address `i` inside the code of `e`, which lies at `at` and is
      entered with `st`. */
  function HeightAt(e: Expr, ctx: Ctx, st: Stack, at: nat, i: nat): Option<Stack>
    requires |st.marks| == |ctx|
    decreases e, 1
  {
    match e
    case Unary(_, _) => HeightUnary(e, ctx, st, at, i)
    case Binary(_, _, _) => HeightBinary(e, ctx, st, at, i)
    case HashAppend(_, _, _) => HeightHashAppend(e, ctx, st, at, i)
    case Member(_, _) => HeightMember(e, ctx, st, at, i)
    case Cond(_, _, _) => HeightCond(e, ctx, st, at, i)
    case Semi(_, _) => HeightSemi(e, ctx, st, at, i)
    case Assign(_, _) => HeightAssign(e, ctx, st, at, i)
    case OpAssign(_, _, _) => HeightOpAssign(e, ctx, st, at, i)
    case MultiAssign(_, _) => HeightMultiAssign(e, ctx, st, at, i)
    case Unpack(_, _) => HeightUnpack(e, ctx, st, at, i)
    case Loop(_, _, _, _) => HeightWhile(e, ctx, st, at, i)
    case ForEach(_, _, _, _, _) => HeightForEach(e, ctx, st, at, i)
    case Break(_) => HeightBreak(e, ctx, st, at, i)
    case Continue(_) => HeightContinue(e, ctx, st, at, i)
    case Return(_) => HeightReturn(e, ctx, st, at, i)
    case Call(_, _) => HeightCall(e, ctx, st, at, i)
    case MethodCall(_, _, _) => HeightMethodCall(e, ctx, st, at, i)
    case NamedCall(_, _) => HeightNamedCall(e, ctx, st, at, i)
    case NamedMethodCall(_, _, _) => HeightNamedMethodCall(e, ctx, st, at, i)
    case And(_, _) => HeightShort(e, ctx, st, at, i)
    case Or(_, _) => HeightShort(e, ctx, st, at, i)
    case _ => Own(i, at, st)
  }

  function HeightUnary(e: Expr, ctx: Ctx, st: Stack, at: nat, i: nat): Option<Stack>
    requires e.Unary? && |st.marks| == |ctx|
    decreases e, 0
  {
    if Folds(e) then Own(i, at, st)
    else
      var o := at + Len(e.arg, ctx);
      if i < o then HeightAt(e.arg, ctx, st, at, i) else Own(i, o, Up(st, 1))
  }

  function HeightBinary(e: Expr, ctx: Ctx, st: Stack, at: nat, i: nat): Option<Stack>
    requires e.Binary? && |st.marks| == |ctx|
    decreases e, 0
  {
    var r0 := at + Len(e.left, ctx);
    var o := r0 + Len(e.right, ctx);
    if i < r0 then HeightAt(e.left, ctx, st, at, i)
    else if i < o then HeightAt(e.right, ctx, Up(st, 1), r0, i)
    else Own(i, o, Up(st, 2))
  }

  function HeightHashAppend(e: Expr, ctx: Ctx, st: Stack, at: nat, i: nat): Option<Stack>
    requires e.HashAppend? && |st.marks| == |ctx|
    decreases e, 0
  {
    var k0 := at + Len(e.hash, ctx);
    var v0 := k0 + Len(e.key, ctx);
    var o := v0 + Len(e.val, ctx);
    if i < k0 then HeightAt(e.hash, ctx, st, at, i)
    else if i < v0 then HeightAt(e.key, ctx, Up(st, 1), k0, i)
    else if i < o then HeightAt(e.val, ctx, Up(st, 2), v0, i)
    else Own(i, o, Up(st, 3))
  }

  function HeightMember(e: Expr, ctx: Ctx, st: Stack, at: nat, i: nat): Option<Stack>
    requires e.Member? && |st.marks| == |ctx|
    decreases e, 0
  {
    var o := at + Len(e.obj, ctx);
    if i < o then HeightAt(e.obj, ctx, st, at, i) else Own(i, o, Up(st, 1))
  }

  function HeightShort(e: Expr, ctx: Ctx, st: Stack, at: nat, i: nat): Option<Stack>
    requires (e.And? || e.Or?) && |st.marks| == |ctx|
    decreases e, 0
  {
    var r0 := at + Len(e.left, ctx) + 3;
    if i < r0 - 3 then HeightAt(e.left, ctx, st, at, i)
    else if i < r0 then (if i == r0 - 2 then None else Some(Up(st, 1)))
    else HeightAt(e.right, ctx, st, r0, i)
  }

  function HeightCond(e: Expr, ctx: Ctx, st: Stack, at: nat, i: nat): Option<Stack>
    requires e.Cond? && |st.marks| == |ctx|
    decreases e, 0
  {
    var a0 := at + Len(e.test, ctx) + 2;
    var b0 := a0 + Len(e.thn, ctx) + 2;
    if i < a0 - 2 then HeightAt(e.test, ctx, st, at, i)
    else if i < a0 then Own(i, a0 - 2, Up(st, 1))
    else if i < b0 - 2 then HeightAt(e.thn, ctx, st, a0, i)
    else if i < b0 then Own(i, b0 - 2, Up(st, 1))
    else HeightAt(e.els, ctx, st, b0, i)
  }

  function HeightSemi(e: Expr, ctx: Ctx, st: Stack, at: nat, i: nat): Option<Stack>
    requires e.Semi? && |st.marks| == |ctx|
    decreases e, 0
  {
    var b0 := at + Len(e.first, ctx) + 1;
    if i < b0 - 1 then HeightAt(e.first, ctx, st, at, i)
    else if i < b0 then Some(Up(st, 1))
    else HeightAt(e.rest, ctx, st, b0, i)
  }

  function HeightAssign(e: Expr, ctx: Ctx, st: Stack, at: nat, i: nat): Option<Stack>
    requires e.Assign? && |st.marks| == |ctx|
    decreases e, 0
  {
    var t0 := at + Len(e.rhs, ctx);
    if i < t0 then HeightAt(e.rhs, ctx, st, at, i) else HeightStore(e.lv, ctx, Up(st, 1), t0, i)
  }

  function HeightOpAssign(e: Expr, ctx: Ctx, st: Stack, at: nat, i: nat): Option<Stack>
    requires e.OpAssign? && |st.marks| == |ctx|
    decreases e, 0
  {
    var n := Operands(e.lv);
    var l0 := at + LenTarget(e.lv, ctx);
    var r0 := l0 + LoadLen(e.lv);
    var op0 := r0 + Len(e.rhs, ctx);
    if i < l0 then HeightTarget(e.lv, ctx, st, at, i)
    else if i < r0 then HeightLoad(e.lv, st, l0, i)
    else if i < op0 then HeightAt(e.rhs, ctx, Up(st, n + 1), r0, i)
    else if i == op0 then Some(Up(st, n + 2))
    else if i <= op0 + 2 then Some(Up(st, n + 1))
    else None
  }

  function HeightMultiAssign(e: Expr, ctx: Ctx, st: Stack, at: nat, i: nat): Option<Stack>
    requires e.MultiAssign? && |st.marks| == |ctx|
    decreases e, 0
  {
    var t0 := at + LenList(e.rvs, ctx);
    if i < t0 then HeightReverse(e.rvs, ctx, st, at, i) else HeightTargets(e.lvs, ctx, st, t0, i)
  }

  function HeightUnpack(e: Expr, ctx: Ctx, st: Stack, at: nat, i: nat): Option<Stack>
    requires e.Unpack? && |st.marks| == |ctx|
    decreases e, 0
  {
    var u0 := at + Len(e.rhs, ctx);
    if i < u0 then HeightAt(e.rhs, ctx, st, at, i)
    else if i < u0 + 2 then Own(i, u0, Up(st, 1))
    else HeightTargets(e.lvs, ctx, st, u0 + 2, i)
  }

  function HeightWhile(e: Expr, ctx: Ctx, st: Stack, at: nat, i: nat): Option<Stack>
    requires e.Loop? && |st.marks| == |ctx|
    decreases e, 0, 2
  {
    var j := at + 1 + Len(e.test, Header(e, ctx));
    if i <= at then Own(i, at, st)
    else if i < j then HeightAt(e.test, Header(e, ctx), Marked(st), at + 1, i)
    else if i < j + 2 then Own(i, j, Up(Marked(st), 1))
    else HeightLoop(e, ctx, st, j + 2, i)
  }

  function HeightForEach(e: Expr, ctx: Ctx, st: Stack, at: nat, i: nat): Option<Stack>
    requires e.ForEach? && |st.marks| == |ctx|
    decreases e, 0, 2
  {
    var top := at + Len(e.vec, ctx) + 2;
    var b0 := top + 5 + LenTarget(e.lv, Header(e, ctx));
    var end := b0 + LoopLen(e, ctx);
    if i < b0 then HeightEachHeader(e, ctx, st, at, top, i)
    else if i < end then HeightLoop(e, ctx, Up(st, 2), b0, i)
    else if i == end then Some(Up(st, 3))
    else Own(i, end + 1, Up(st, 2))
  }

  /** The vector and the index lie below the loop's mark. */
  function HeightEachHeader(e: Expr, ctx: Ctx, st: Stack, at: nat, top: nat, i: nat): Option<Stack>
    requires e.ForEach? && |st.marks| == |ctx| && top >= 2
    decreases e, 0, 0
  {
    var t0 := top + 3;
    var inside := Marked(Up(st, 2));
    if i < top - 2 then HeightAt(e.vec, ctx, st, at, i)
    else if i == top - 2 then Some(Up(st, 1))
    else if i == top - 1 then Some(Up(st, 2))
    else if i == top then Some(inside)
    else if i < t0 then Own(i, top + 1, Up(inside, 1))
    else if i < t0 + LenTarget(e.lv, Header(e, ctx)) + 1 then HeightStore(e.lv, Header(e, ctx), Up(inside, 1), t0, i)
    else Own(i, t0 + LenTarget(e.lv, Header(e, ctx)) + 1, Up(inside, 1))
  }

  /** The part shared by all loops, of a loop that starts with `st`. */
  function HeightLoop(e: Expr, ctx: Ctx, st: Stack, b0: nat, i: nat): Option<Stack>
    requires IsLoop(e) && |st.marks| == |ctx|
    decreases e, 0, 1
  {
    var u0 := b0 + 4 + Len(e.body, Inside(e, ctx)) + 1;
    var end := u0 + UpdateLen(e, ctx) + 2;
    if i < u0 then HeightBody(e, Inside(e, ctx), Marked(st), b0, i)
    else if i < end - 2 then HeightUpdate(e, Inside(e, ctx), Marked(st), u0, i)
    else if i < end then Own(i, end - 2, Marked(st))
    else if i == end then Some(Marked(st))
    else Own(i, end + 1, st)
  }

  function HeightBody(e: Expr, inside: Ctx, st: Stack, b0: nat, i: nat): Option<Stack>
    requires IsLoop(e) && |st.marks| == |inside|
    decreases e, 0, 0
  {
    var p0 := b0 + 4 + Len(e.body, inside);
    if i < b0 + 4 then (if i == b0 || i == b0 + 2 then Some(st) else None)
    else if i < p0 then HeightAt(e.body, inside, st, b0 + 4, i)
    else Own(i, p0, Up(st, 1))
  }

  function HeightUpdate(e: Expr, inside: Ctx, st: Stack, at: nat, i: nat): Option<Stack>
    requires IsLoop(e) && |st.marks| == |inside|
    decreases e, 0, 0
  {
    if e.Loop? && e.update.Some? then
      var p0 := at + Len(e.update.value, inside);
      if i < p0 then HeightAt(e.update.value, inside, st, at, i) else Own(i, p0, Up(st, 1))
    else None
  }

  function HeightBreak(e: Expr, ctx: Ctx, st: Stack, at: nat, i: nat): Option<Stack>
    requires e.Break? && |st.marks| == |ctx|
    decreases e, 0
  {
    match Resolve(ctx, e.target)
    case None => None
    case Some(j) =>
      var n := |ctx| - j;
      if i < at then None
      else if i < at + n then Some(Cut(st, i - at))
      else if i == at + n then Some(Landing(st, j))
      else Own(i, at + n + 1, Up(Landing(st, j), 1))
  }

  function HeightContinue(e: Expr, ctx: Ctx, st: Stack, at: nat, i: nat): Option<Stack>
    requires e.Continue? && |st.marks| == |ctx|
    decreases e, 0
  {
    match Resolve(ctx, e.target)
    case None => None
    case Some(j) =>
      var n := |ctx| - j;
      if i < at then None
      else if i < at + n then Some(Cut(st, i - at))
      else Own(i, at + n, Landing(st, j))
  }

  function HeightReturn(e: Expr, ctx: Ctx, st: Stack, at: nat, i: nat): Option<Stack>
    requires e.Return? && |st.marks| == |ctx|
    decreases e, 0
  {
    var u0 := at + Len(e.arg, ctx);
    if i < u0 then HeightAt(e.arg, ctx, st, at, i)
    else if i <= u0 + |ctx| then Some(Stack(st.ops + 1, st.marks[..|ctx| - (i - u0)]))
    else None
  }

  function HeightCall(e: Expr, ctx: Ctx, st: Stack, at: nat, i: nat): Option<Stack>
    requires e.Call? && |st.marks| == |ctx|
    decreases e, 0
  {
    var a0 := at + Len(e.f, ctx);
    var o := a0 + LenList(e.args, ctx);
    if i < a0 then HeightAt(e.f, ctx, st, at, i)
    else if i < o then HeightList(e.args, ctx, Up(st, 1), a0, i)
    else Own(i, o, Up(st, 1 + Count(e.args)))
  }

  function HeightMethodCall(e: Expr, ctx: Ctx, st: Stack, at: nat, i: nat): Option<Stack>
    requires e.MethodCall? && |st.marks| == |ctx|
    decreases e, 0
  {
    var a0 := at + Len(e.obj, ctx) + 3;
    var o := a0 + LenList(e.args, ctx);
    if i < a0 then HeightMethod(e.obj, ctx, st, at, i)
    else if i < o then HeightList(e.args, ctx, Up(st, 2), a0, i)
    else Own(i, o, Up(st, 2 + Count(e.args)))
  }

  function HeightNamedCall(e: Expr, ctx: Ctx, st: Stack, at: nat, i: nat): Option<Stack>
    requires e.NamedCall? && |st.marks| == |ctx|
    decreases e, 0
  {
    var h0 := at + Len(e.f, ctx);
    var o := h0 + Len(e.named, ctx);
    if i < h0 then HeightAt(e.f, ctx, st, at, i)
    else if i < o then HeightAt(e.named, ctx, Up(st, 1), h0, i)
    else Own(i, o, Up(st, 2))
  }

  function HeightNamedMethodCall(e: Expr, ctx: Ctx, st: Stack, at: nat, i: nat): Option<Stack>
    requires e.NamedMethodCall? && |st.marks| == |ctx|
    decreases e, 0
  {
    var h0 := at + Len(e.obj, ctx) + 3;
    var o := h0 + Len(e.named, ctx);
    if i < h0 then HeightMethod(e.obj, ctx, st, at, i)
    else if i < o then HeightAt(e.named, ctx, Up(st, 2), h0, i)
    else Own(i, o, Up(st, 3))
  }

  function HeightMethod(obj: Expr, ctx: Ctx, st: Stack, at: nat, i: nat): Option<Stack>
    requires |st.marks| == |ctx|
    decreases obj, 2
  {
    var d0 := at + Len(obj, ctx);
    if i < d0 then HeightAt(obj, ctx, st, at, i)
    else if i == d0 then Some(Up(st, 1))
    else Own(i, d0 + 1, Up(st, 2))
  }

  function HeightList(es: Exprs, ctx: Ctx, st: Stack, at: nat, i: nat): Option<Stack>
    requires |st.marks| == |ctx|
    decreases es, 0
  {
    match es
    case NoExprs => None
    case More(e, t) =>
      var t0 := at + Len(e, ctx);
      if i < t0 then HeightAt(e, ctx, st, at, i) else HeightList(t, ctx, Up(st, 1), t0, i)
  }

  function HeightReverse(es: Exprs, ctx: Ctx, st: Stack, at: nat, i: nat): Option<Stack>
    requires |st.marks| == |ctx|
    decreases es, 0
  {
    match es
    case NoExprs => None
    case More(e, t) =>
      var e0 := at + LenList(t, ctx);
      if i < e0 then HeightReverse(t, ctx, st, at, i) else HeightAt(e, ctx, Up(st, Count(t)), e0, i)
  }

  /** How many operands name an assignment target. */
  function Operands(lv: LValue): nat { if lv.LSym? || lv.LVar? then 1 else 2 }

  function HeightTarget(lv: LValue, ctx: Ctx, st: Stack, at: nat, i: nat): Option<Stack>
    requires |st.marks| == |ctx|
    decreases lv, 0
  {
    match lv
    case LMember(obj, _) =>
      var o := at + Len(obj, ctx);
      if i < o then HeightAt(obj, ctx, st, at, i) else Own(i, o, Up(st, 1))
    case LIndex(box, key) =>
      var k0 := at + Len(box, ctx);
      if i < k0 then HeightAt(box, ctx, st, at, i) else HeightAt(key, ctx, Up(st, 1), k0, i)
    case _ => Own(i, at, st)
  }

  /** The load in an op-assignment, above the operands of the target. */
  function HeightLoad(lv: LValue, st: Stack, at: nat, i: nat): Option<Stack> {
    match lv
    case LMember(_, _) =>
      if i == at then Some(Up(st, 2)) else if i == at + 1 then Some(Up(st, 4)) else Own(i, at + 2, Up(st, 3))
    case LIndex(_, _) => if i == at then Some(Up(st, 2)) else Own(i, at + 1, Up(st, 4))
    case _ => Own(i, at, Up(st, 1))
  }

  function HeightStore(lv: LValue, ctx: Ctx, st: Stack, at: nat, i: nat): Option<Stack>
    requires |st.marks| == |ctx|
    decreases lv, 1
  {
    var o := at + LenTarget(lv, ctx);
    if i < o then HeightTarget(lv, ctx, st, at, i) else Own(i, o, Up(st, Operands(lv)))
  }

  /** Stores of as many values as there are targets, which lie above `st`. */
  function HeightTargets(lvs: LValues, ctx: Ctx, st: Stack, at: nat, i: nat): Option<Stack>
    requires |st.marks| == |ctx|
    decreases lvs, 0
  {
    match lvs
    case OneLV(lv) => HeightStore(lv, ctx, Up(st, 1), at, i)
    case MoreLV(lv, rest) =>
      var p0 := at + LenTarget(lv, ctx) + 1;
      if i < p0 then HeightStore(lv, ctx, Up(st, CountLV(lvs)), at, i)
      else if i == p0 then Some(Up(st, CountLV(lvs)))
      else HeightTargets(rest, ctx, st, p0 + 1, i)
  }

  // ----- what a verifier of the code tests -----

  type Map = nat -> Option<Stack>

  predicate Is(o: Option<Stack>, ops: int, marks: seq<nat>) { o.Some? && o.value.ops == ops && o.value.marks == marks }

  /** What the instructions that neither jump nor touch the marks add to the operands. */
  function Net(op: nat, arg: nat): int {
    if BinaryOf(op).Some? || op in {OP_POP, OP_SETSYM, OP_SETLOCAL, OP_FCALLH} then -1
    else if op in {OP_SETMEMBER, OP_INSERT, OP_HAPPEND, OP_MCALLH} then -2
    else if op in {OP_XCHG, OP_XCHG2, OP_NEG, OP_NOT, OP_MEMBER} then 0
    else if op == OP_DUP2 then 2
    else if op == OP_UNPACK then arg - 1
    else if op == OP_FCALL then 0 - arg
    else if op == OP_MCALL then 0 - arg - 1
    else 1
  }

  predicate Loops(op: nat) { op in {OP_MARK, OP_UNMARK, OP_BREAK, OP_BREAK2} }

  predicate Branches(op: nat) { op in {OP_JMP, OP_JMPLOOP, OP_JIFTRUE, OP_JIFNOT, OP_JIFNOTPOP, OP_JIFEND} }

  function Arg(c: CodeObj, i: nat): nat
    requires i < |c.words|
  {
    if HasArg(c.words[i]) && i + 1 < |c.words| then c.words[i + 1] else 0
  }

  function NextIP(c: CodeObj, i: nat): nat
    requires i < |c.words|
  {
    i + if HasArg(c.words[i]) then 2 else 1
  }

  /** The instruction at `i` finds its operands, and every place it can go to has
      the height it leaves. Its argument is no place to go to. */
  ghost predicate Follows(c: CodeObj, H: Map, i: nat, st: Stack) {
    && i < |c.words| && (HasArg(c.words[i]) ==> i + 1 < |c.words| && H(i + 1).None?)
    && var op, arg, next := c.words[i], Arg(c, i), NextIP(c, i);
       && Needs(op, arg) <= st.ops
       && if op == OP_RETURN then st.marks == []
          else if Branches(op) then FollowsBranch(H, op, arg, next, st)
          else if Loops(op) then FollowsMark(H, op, next, st)
          else Is(H(next), st.ops + Net(op, arg), st.marks)
  }

  ghost predicate FollowsBranch(H: Map, op: nat, target: nat, next: nat, st: Stack) {
    if op == OP_JMP || op == OP_JMPLOOP then H(target) == Some(st)
    else
      && (if op == OP_JIFTRUE || op == OP_JIFNOT then H(target) == Some(st) else Is(H(target), st.ops - 1, st.marks))
      && (if op == OP_JIFNOTPOP then Is(H(next), st.ops - 1, st.marks) else H(next) == Some(st))
  }

  ghost predicate FollowsMark(H: Map, op: nat, next: nat, st: Stack) {
    if op == OP_MARK then H(next) == Some(Marked(st))
    else
      && st.marks != []
      && var k := |st.marks| - 1;
         if op == OP_UNMARK then H(next) == Some(st.(marks := st.marks[..k]))
         else if op == OP_BREAK then st.marks[k] <= st.ops && H(next) == Some(st.(ops := st.marks[k]))
         else st.marks[k] <= st.ops && H(next) == Some(Stack(st.marks[k], st.marks[..k]))
  }

  /** The word is an instruction that passes, or the argument of one. */
  ghost predicate CheckedAt(c: CodeObj, H: Map, i: nat) {
    if H(i).Some? then Follows(c, H, i, H(i).value)
    else 0 < i <= |c.words| && H(i - 1).Some? && HasArg(c.words[i - 1])
  }

  ghost predicate Checked(c: CodeObj, H: Map, lo: nat, hi: nat) {
    forall i :: lo <= i < hi ==> CheckedAt(c, H, i)
  }
}
