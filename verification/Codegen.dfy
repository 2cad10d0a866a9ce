/** The code generator: a walk over the tree that appends to a code buffer,
    collects constants, and patches jumps once their targets are known. What it
    leaves in the buffer is the layout that Emitted describes. */
module Codegen {
  import opened Basics
  import opened Values
  import opened Syntax
  import opened Semantics
  import opened Machine
  import opened Layout
  import opened Stability
  import opened Simulation

  /** Success, or the message of a parse error. */
  datatype Check = Pass | Error(msg: string) {
    predicate IsFailure() { Error? }
    function PropagateFailure(): Check
      requires Error?
    {
      this
    }
  }

  const MAX_WORD := 0xffff

  // ----- one unfolding of the recursive definitions -----

  lemma ShapeOfOperation(e: Expr, ctx: Ctx, tg: Targets, c: CodeObj, at: nat)
    requires |ctx| == |tg|
    ensures match e
            case Unary(_, _) =>
              && Len(e, ctx) == (if Folds(e) then NumLen(-e.arg.n) else Len(e.arg, ctx) + 1)
              && (Emitted(e, ctx, tg, c, at) <==> EmittedUnary(e, ctx, tg, c, at))
            case Binary(_, _, _) =>
              && Len(e, ctx) == Len(e.left, ctx) + Len(e.right, ctx) + 1
              && (Emitted(e, ctx, tg, c, at) <==> EmittedBinary(e, ctx, tg, c, at))
            case HashAppend(_, _, _) =>
              && Len(e, ctx) == Len(e.hash, ctx) + Len(e.key, ctx) + Len(e.val, ctx) + 1
              && (Emitted(e, ctx, tg, c, at) <==> EmittedHashAppend(e, ctx, tg, c, at))
            case Member(_, _) =>
              && Len(e, ctx) == Len(e.obj, ctx) + 2
              && (Emitted(e, ctx, tg, c, at) <==> EmittedMember(e, ctx, tg, c, at))
            case Assign(_, _) =>
              && Len(e, ctx) == Len(e.rhs, ctx) + LenTarget(e.lv, ctx) + 1
              && (Emitted(e, ctx, tg, c, at) <==> EmittedAssign(e, ctx, tg, c, at))
            case OpAssign(_, _, _) =>
              && Len(e, ctx) == LenTarget(e.lv, ctx) + LoadLen(e.lv) + Len(e.rhs, ctx) + 3
              && (Emitted(e, ctx, tg, c, at) <==> EmittedOpAssign(e, ctx, tg, c, at))
            case MultiAssign(_, _) =>
              && Len(e, ctx) == LenList(e.rvs, ctx) + LenTargets(e.lvs, ctx)
              && (Emitted(e, ctx, tg, c, at) <==> EmittedMultiAssign(e, ctx, tg, c, at))
            case Unpack(_, _) =>
              && Len(e, ctx) == Len(e.rhs, ctx) + 2 + LenTargets(e.lvs, ctx)
              && (Emitted(e, ctx, tg, c, at) <==> EmittedUnpack(e, ctx, tg, c, at))
            case Call(_, _) =>
              && Len(e, ctx) == Len(e.f, ctx) + LenList(e.args, ctx) + 2
              && (Emitted(e, ctx, tg, c, at) <==> EmittedCall(e, ctx, tg, c, at))
            case MethodCall(_, _, _) =>
              && Len(e, ctx) == Len(e.obj, ctx) + 3 + LenList(e.args, ctx) + 2
              && (Emitted(e, ctx, tg, c, at) <==> EmittedMethodCall(e, ctx, tg, c, at))
            case NamedCall(_, _) =>
              && Len(e, ctx) == Len(e.f, ctx) + Len(e.named, ctx) + 1
              && (Emitted(e, ctx, tg, c, at) <==> EmittedNamedCall(e, ctx, tg, c, at))
            case NamedMethodCall(_, _, _) =>
              && Len(e, ctx) == Len(e.obj, ctx) + 3 + Len(e.named, ctx) + 1
              && (Emitted(e, ctx, tg, c, at) <==> EmittedNamedMethodCall(e, ctx, tg, c, at))
            case _ => true
  {
    hide EmittedAssign, EmittedBinary, EmittedCall, EmittedHashAppend, EmittedMember, EmittedMethodCall,
        EmittedMultiAssign, EmittedNamedCall, EmittedNamedMethodCall, EmittedOpAssign, EmittedUnary, EmittedUnpack;
  }

  lemma ShapeOfControl(e: Expr, ctx: Ctx, tg: Targets, c: CodeObj, at: nat)
    requires |ctx| == |tg|
    ensures match e
            case And(_, _) =>
              && Len(e, ctx) == Len(e.left, ctx) + 3 + Len(e.right, ctx)
              && (Emitted(e, ctx, tg, c, at) <==> EmittedShort(e, ctx, tg, c, at))
            case Or(_, _) =>
              && Len(e, ctx) == Len(e.left, ctx) + 3 + Len(e.right, ctx)
              && (Emitted(e, ctx, tg, c, at) <==> EmittedShort(e, ctx, tg, c, at))
            case Cond(_, _, _) =>
              && Len(e, ctx) == Len(e.test, ctx) + Len(e.thn, ctx) + Len(e.els, ctx) + 4
              && (Emitted(e, ctx, tg, c, at) <==> EmittedCond(e, ctx, tg, c, at))
            case Semi(_, _) =>
              && Len(e, ctx) == Len(e.first, ctx) + 1 + Len(e.rest, ctx)
              && (Emitted(e, ctx, tg, c, at) <==> EmittedSemi(e, ctx, tg, c, at))
            case Loop(_, _, _, _) =>
              && Len(e, ctx) == 1 + Len(e.test, Header(e, ctx)) + 2 + LoopLen(e, ctx)
              && (Emitted(e, ctx, tg, c, at) <==> EmittedWhile(e, ctx, tg, c, at))
            case ForEach(_, _, _, _, _) =>
              && Len(e, ctx) == Len(e.vec, ctx) + 5 + LenTarget(e.lv, Header(e, ctx)) + 2 + LoopLen(e, ctx) + 2
              && (Emitted(e, ctx, tg, c, at) <==> EmittedForEach(e, ctx, tg, c, at))
            case Break(_) =>
              && Len(e, ctx) == JumpLen(ctx, e.target) + 1
              && (Emitted(e, ctx, tg, c, at) <==> EmittedBreak(e, ctx, tg, c, at))
            case Continue(_) =>
              && Len(e, ctx) == JumpLen(ctx, e.target)
              && (Emitted(e, ctx, tg, c, at) <==> EmittedContinue(e, ctx, tg, c, at))
            case Return(_) =>
              && Len(e, ctx) == Len(e.arg, ctx) + |ctx| + 1
              && (Emitted(e, ctx, tg, c, at) <==> EmittedReturn(e, ctx, tg, c, at))
            case _ => true
  {
    hide EmittedBreak, EmittedCond, EmittedContinue, EmittedForEach, EmittedReturn, EmittedSemi, EmittedShort,
        EmittedWhile;
  }

  // ----- what a generated part is -----

  /** Addresses and constant indices fit in a code word. */
  ghost predicate Fits(c: CodeObj) { |c.words| <= MAX_WORD }

  ghost predicate Grown(c0: CodeObj, c: CodeObj) { c0.words <= c.words && c0.consts <= c.consts }

  /** Code for `e` was appended to `c0`, giving `c`. */
  ghost predicate Made(e: Expr, ctx: Ctx, tg: Targets, c0: CodeObj, c: CodeObj)
    requires |ctx| == |tg|
  {
    && |c.words| == |c0.words| + Len(e, ctx)
    && (WellFormed(e, ctx) && Fits(c) ==> Emitted(e, ctx, tg, c, |c0.words|))
  }

  ghost predicate MadeList(es: Exprs, ctx: Ctx, tg: Targets, c0: CodeObj, c: CodeObj)
    requires |ctx| == |tg|
  {
    && |c.words| == |c0.words| + LenList(es, ctx)
    && (WellFormedList(es, ctx) && Fits(c) ==> EmittedList(es, ctx, tg, c, |c0.words|))
  }

  ghost predicate MadeReverse(es: Exprs, ctx: Ctx, tg: Targets, c0: CodeObj, c: CodeObj)
    requires |ctx| == |tg|
  {
    && |c.words| == |c0.words| + LenList(es, ctx)
    && (WellFormedList(es, ctx) && Fits(c) ==> EmittedReverse(es, ctx, tg, c, |c0.words|))
  }

  ghost predicate MadeTarget(lv: LValue, ctx: Ctx, tg: Targets, c0: CodeObj, c: CodeObj)
    requires |ctx| == |tg|
  {
    && |c.words| == |c0.words| + LenTarget(lv, ctx)
    && (WellFormedLV(lv, ctx) && Fits(c) ==> EmittedTarget(lv, ctx, tg, c, |c0.words|))
  }

  ghost predicate MadeTargets(lvs: LValues, ctx: Ctx, tg: Targets, c0: CodeObj, c: CodeObj)
    requires |ctx| == |tg|
  {
    && |c.words| == |c0.words| + LenTargets(lvs, ctx)
    && (WellFormedLVs(lvs, ctx) && Fits(c) ==> EmittedTargets(lvs, ctx, tg, c, |c0.words|))
  }

  /** What the well-formedness of an expression asks of its parts. */
  lemma Parts(e: Expr, ctx: Ctx)
    ensures WellFormed(e, ctx) == match e
            case Unary(_, a) => WellFormed(a, ctx)
            case Binary(_, l, r) => WellFormed(l, ctx) && WellFormed(r, ctx)
            case HashAppend(h, k, v) => WellFormed(h, ctx) && WellFormed(k, ctx) && WellFormed(v, ctx)
            case Member(o, _) => WellFormed(o, ctx)
            case And(l, r) => WellFormed(l, ctx) && WellFormed(r, ctx)
            case Or(l, r) => WellFormed(l, ctx) && WellFormed(r, ctx)
            case Cond(t, a, b) => WellFormed(t, ctx) && WellFormed(a, ctx) && WellFormed(b, ctx)
            case Semi(a, b) => WellFormed(a, ctx) && WellFormed(b, ctx)
            case Assign(lv, r) => WellFormedLV(lv, ctx) && WellFormed(r, ctx)
            case OpAssign(_, lv, r) => WellFormedLV(lv, ctx) && WellFormed(r, ctx)
            case MultiAssign(lvs, rvs) =>
              WellFormedLVs(lvs, ctx) && WellFormedList(rvs, ctx) && CountLV(lvs) == Count(rvs)
            case Unpack(lvs, r) => WellFormedLVs(lvs, ctx) && WellFormed(r, ctx)
            case Loop(_, t, u, b) =>
              && WellFormed(t, Header(e, ctx)) && WellFormed(b, Inside(e, ctx))
              && (u.Some? ==> WellFormed(u.value, Inside(e, ctx)))
            case ForEach(_, _, lv, v, b) =>
              WellFormed(v, ctx) && WellFormedLV(lv, Header(e, ctx)) && WellFormed(b, Inside(e, ctx))
            case Break(t) => Jumps(ctx, t)
            case Continue(t) => Jumps(ctx, t)
            case Return(a) => WellFormed(a, ctx)
            case Call(f, args) => WellFormed(f, ctx) && WellFormedList(args, ctx)
            case MethodCall(o, _, args) => WellFormed(o, ctx) && WellFormedList(args, ctx)
            case NamedCall(f, h) => WellFormed(f, ctx) && WellFormed(h, ctx)
            case NamedMethodCall(o, _, h) => WellFormed(o, ctx) && WellFormed(h, ctx)
            case _ => true
  {
  }

  lemma CountFits(es: Exprs, ctx: Ctx)
    ensures Count(es) <= LenList(es, ctx)
  {
    hide Len;
    match es
    case NoExprs =>
    case More(e, t) =>
      SomeCode(e, ctx);
      CountFits(t, ctx);
  }

  lemma TargetsFit(lvs: LValues, ctx: Ctx)
    ensures CountLV(lvs) <= LenTargets(lvs, ctx)
  {
    hide LenTarget;
    if lvs.MoreLV? {
      TargetsFit(lvs.rest, ctx);
    }
  }

  /** A part made earlier is still there. */
  lemma Kept(e: Expr, ctx: Ctx, tg: Targets, c0: CodeObj, c1: CodeObj, c: CodeObj)
    requires |ctx| == |tg| && Made(e, ctx, tg, c0, c1) && WellFormed(e, ctx) && Fits(c1)
    requires Agree(c1, c, |c0.words|, |c1.words|)
    ensures Emitted(e, ctx, tg, c, |c0.words|)
  {
    hide Emitted, WellFormed, Len;
    Stable(e, ctx, tg, c1, c, |c0.words|);
  }

  // ----- putting parts together -----

  lemma MakeLeaf(e: Expr, ctx: Ctx, tg: Targets, c0: CodeObj, c: CodeObj)
    requires IsLeaf(e) && |ctx| == |tg| && |c.words| == |c0.words| + LeafLen(e) && EmittedLeaf(e, c, |c0.words|)
    ensures Made(e, ctx, tg, c0, c)
  {
    hide EmittedLeaf, WellFormed;
  }

  lemma MakeShort(e: Expr, ctx: Ctx, tg: Targets, c0: CodeObj, c1: CodeObj, c2: CodeObj, c3: CodeObj, c: CodeObj)
    requires (e.And? || e.Or?) && |ctx| == |tg|
    requires Made(e.left, ctx, tg, c0, c1) && Agree(c1, c, |c0.words|, |c1.words|)
    requires Made(e.right, ctx, tg, c2, c3) && Agree(c3, c, |c2.words|, |c3.words|)
    requires |c2.words| == |c1.words| + 3 && |c.words| == |c3.words|
    requires OpArg(c, |c1.words|, if e.And? then OP_JIFNOT else OP_JIFTRUE, |c.words| % (MAX_WORD + 1))
    requires Op(c, |c1.words| + 2, OP_POP)
    ensures Made(e, ctx, tg, c0, c)
  {
    hide Agree, Emitted, WellFormed, Len;
    ShapeOfControl(e, ctx, tg, c, |c0.words|);
    Parts(e, ctx);
    if WellFormed(e, ctx) && Fits(c) {
      Kept(e.left, ctx, tg, c0, c1, c);
      Kept(e.right, ctx, tg, c2, c3, c);
    }
  }

  lemma MakeCond(e: Expr, ctx: Ctx, tg: Targets, c0: CodeObj, c1: CodeObj, c2: CodeObj, c3: CodeObj, c4: CodeObj,
      c5: CodeObj, c: CodeObj)
    requires e.Cond? && |ctx| == |tg|
    requires Made(e.test, ctx, tg, c0, c1) && Agree(c1, c, |c0.words|, |c1.words|)
    requires Made(e.thn, ctx, tg, c2, c3) && Agree(c3, c, |c2.words|, |c3.words|)
    requires Made(e.els, ctx, tg, c4, c5) && Agree(c5, c, |c4.words|, |c5.words|)
    requires |c2.words| == |c1.words| + 2 && |c4.words| == |c3.words| + 2 && |c.words| == |c5.words|
    requires OpArg(c, |c1.words|, OP_JIFNOTPOP, |c4.words| % (MAX_WORD + 1))
    requires OpArg(c, |c3.words|, OP_JMP, |c.words| % (MAX_WORD + 1))
    ensures Made(e, ctx, tg, c0, c)
  {
    hide Agree, Emitted, WellFormed, Len;
    ShapeOfControl(e, ctx, tg, c, |c0.words|);
    Parts(e, ctx);
    if WellFormed(e, ctx) && Fits(c) {
      Kept(e.test, ctx, tg, c0, c1, c);
      Kept(e.thn, ctx, tg, c2, c3, c);
      Kept(e.els, ctx, tg, c4, c5, c);
    }
  }

  /** The two patches of a conditional leave its three parts alone. */
  lemma CondWords(c0: CodeObj, c1: CodeObj, c2: CodeObj, c3: CodeObj, c4: CodeObj, c5: CodeObj, c: CodeObj)
    requires Grown(c0, c1) && Grown(c2, c3) && Grown(c4, c5)
    requires c2 == CodeObj(c1.words + [OP_JIFNOTPOP, MAX_WORD], c1.consts) && |c1.words| + 1 < |c3.words|
    requires |c4.words| == |c3.words| + 2 && c4.consts == c3.consts
    requires c4.words == (c3.words + [OP_JMP, MAX_WORD])[|c1.words| + 1 := |c4.words| % (MAX_WORD + 1)]
    requires c == CodeObj(c5.words[|c3.words| + 1 := |c5.words| % (MAX_WORD + 1)], c5.consts)
    ensures Agree(c1, c, |c0.words|, |c1.words|) && Agree(c3, c, |c2.words|, |c3.words|)
    ensures Agree(c5, c, |c4.words|, |c5.words|)
    ensures OpArg(c, |c1.words|, OP_JIFNOTPOP, |c4.words| % (MAX_WORD + 1))
    ensures OpArg(c, |c3.words|, OP_JMP, |c.words| % (MAX_WORD + 1))
  {
  }

  lemma MakeOpAssign(e: Expr, ctx: Ctx, tg: Targets, c0: CodeObj, c1: CodeObj, c2: CodeObj, c3: CodeObj, c: CodeObj)
    requires e.OpAssign? && |ctx| == |tg|
    requires MadeTarget(e.lv, ctx, tg, c0, c1) && Agree(c1, c, |c0.words|, |c1.words|)
    requires |c2.words| == |c1.words| + LoadLen(e.lv) && LoadAt(e.lv, c2, |c1.words|)
    requires Agree(c2, c, |c1.words|, |c2.words|)
    requires Made(e.rhs, ctx, tg, c2, c3) && Agree(c3, c, |c2.words|, |c3.words|)
    requires |c.words| == |c3.words| + 3 && Op(c, |c3.words|, BinaryCode(e.op))
    requires Op(c, |c3.words| + 1, if e.lv.LSym? || e.lv.LVar? then OP_XCHG else OP_XCHG2)
    requires Op(c, |c3.words| + 2, StoreCode(e.lv))
    ensures Made(e, ctx, tg, c0, c)
  {
    hide Agree, Emitted, WellFormed, Len, EmittedTarget;
    ShapeOfOperation(e, ctx, tg, c, |c0.words|);
    Parts(e, ctx);
    if WellFormed(e, ctx) && Fits(c) {
      StableTarget(e.lv, ctx, tg, c1, c, |c0.words|);
      StableLoad(e.lv, c2, c, |c1.words|);
      Kept(e.rhs, ctx, tg, c2, c3, c);
    }
  }

  lemma StableLoad(lv: LValue, c: CodeObj, d: CodeObj, at: nat)
    requires LoadAt(lv, c, at) && Agree(c, d, at, at + LoadLen(lv))
    ensures LoadAt(lv, d, at)
  {
  }

  lemma StoreKept(lv: LValue, ctx: Ctx, tg: Targets, at: nat, c1: CodeObj, c: CodeObj)
    requires |ctx| == |tg| && EmittedStore(lv, ctx, tg, c1, at) && |c1.words| == at + LenTarget(lv, ctx) + 1
    requires Agree(c1, c, at, |c1.words|)
    ensures EmittedStore(lv, ctx, tg, c, at)
  {
    hide Emitted, EmittedStore, LenTarget;
    StableStore(lv, ctx, tg, c1, c, at);
  }

  lemma MakeEachHeader(e: Expr, ctx: Ctx, tg: Targets, c0: CodeObj, c1: CodeObj, c2: CodeObj, c3: CodeObj, c: CodeObj)
    requires e.ForEach? && |ctx| == |tg| && WellFormed(e.vec, ctx) && WellFormedLV(e.lv, Header(e, ctx)) && Fits(c)
    requires Made(e.vec, ctx, tg, c0, c1) && Agree(c1, c, |c0.words|, |c1.words|)
    requires Op(c, |c1.words|, OP_PUSHZERO) && Op(c, |c1.words| + 1, OP_MARK)
    requires Op(c, |c1.words| + 2, if e.useIndex then OP_INDEX else OP_EACH)
    requires |c2.words| == |c1.words| + 5 && |c3.words| == |c2.words| + LenTarget(e.lv, Header(e, ctx)) + 1
    requires EmittedStore(e.lv, Header(e, ctx), tg + [PENDING], c3, |c2.words|)
    requires Agree(c3, c, |c2.words|, |c3.words|) && Op(c, |c3.words|, OP_POP)
    ensures EmittedEachHeader(e, ctx, tg, c, |c0.words|, |c1.words| + 2)
  {
    hide Agree, Emitted, WellFormed, Len, EmittedStore;
    Kept(e.vec, ctx, tg, c0, c1, c);
    StoreKept(e.lv, Header(e, ctx), tg + [PENDING], |c2.words|, c3, c);
  }

  lemma MakeForEach(e: Expr, ctx: Ctx, tg: Targets, at: nat, top: nat, c1: CodeObj, c2: CodeObj, c: CodeObj)
    requires e.ForEach? && |ctx| == |tg|
    requires top == at + Len(e.vec, ctx) + 2 && |c1.words| == top + 5 + LenTarget(e.lv, Header(e, ctx))
    requires WellFormed(e, ctx) && Fits(c1) ==> EmittedEachHeader(e, ctx, tg, c1, at, top)
    requires Agree(c1, c, at, top + 1) && Agree(c1, c, top + 3, |c1.words|)
    requires |c2.words| == |c1.words| + LoopLen(e, ctx)
    requires WellFormed(e, ctx) && Fits(c2) ==> EmittedLoop(e, OP_JIFEND, ctx, tg, c2, top, top + 1, |c1.words|)
    requires Agree(c2, c, top + 1, top + 3) && Agree(c2, c, |c1.words|, |c2.words|)
    requires |c.words| == |c2.words| + 2 && Op(c, |c2.words|, OP_POP) && Op(c, |c2.words| + 1, OP_POP)
    ensures |c.words| == at + Len(e, ctx)
    ensures WellFormed(e, ctx) && Fits(c) ==> Emitted(e, ctx, tg, c, at)
  {
    hide Agree, Emitted, WellFormed, Len, EmittedLoop, EmittedEachHeader, LoopLen, LenTarget;
    if WellFormed(e, ctx) && Fits(c) {
      StableEachHeader(e, ctx, tg, c1, c, at, top);
      StableLoop(e, OP_JIFEND, ctx, tg, c2, c, top, top + 1, |c1.words|);
    }
    ShapeOfControl(e, ctx, tg, c, at);
    Parts(e, ctx);
  }

  lemma MakeMethod(obj: Expr, field: string, ctx: Ctx, tg: Targets, c0: CodeObj, c1: CodeObj, c: CodeObj)
    requires |ctx| == |tg| && WellFormed(obj, ctx) && Fits(c)
    requires Made(obj, ctx, tg, c0, c1) && Agree(c1, c, |c0.words|, |c1.words|)
    requires Op(c, |c1.words|, OP_DUP) && OpConst(c, |c1.words| + 1, OP_MEMBER, Text(field))
    ensures EmittedMethod(obj, field, ctx, tg, c, |c0.words|)
  {
    hide Agree, Emitted, WellFormed, Len;
    Kept(obj, ctx, tg, c0, c1, c);
  }

  lemma MadeListLen(es: Exprs, ctx: Ctx, tg: Targets, c0: CodeObj, c: CodeObj)
    requires |ctx| == |tg| && MadeList(es, ctx, tg, c0, c)
    ensures |c.words| == |c0.words| + LenList(es, ctx)
  {
  }

  lemma MakeMethodCall(e: Expr, ctx: Ctx, tg: Targets, c0: CodeObj, c1: CodeObj, c2: CodeObj, c: CodeObj)
    requires e.MethodCall? && |ctx| == |tg| && |c1.words| == |c0.words| + Len(e.obj, ctx) + 3
    requires WellFormed(e.obj, ctx) && Fits(c1) ==> EmittedMethod(e.obj, e.field, ctx, tg, c1, |c0.words|)
    requires MadeList(e.args, ctx, tg, c1, c2) && |c.words| == |c2.words| + 2
    requires Agree(c1, c, |c0.words|, |c1.words|) && Agree(c2, c, |c1.words|, |c2.words|)
    requires OpArg(c, |c2.words|, OP_MCALL, Count(e.args) % (MAX_WORD + 1))
    ensures Made(e, ctx, tg, c0, c)
  {
    hide Agree, Emitted, WellFormed, Len, EmittedMethod, EmittedList;
    Parts(e, ctx);
    CountFits(e.args, ctx);
    ShapeOfOperation(e, ctx, tg, c, |c0.words|);
    if WellFormed(e, ctx) && Fits(c) {
      StableMethod(e.obj, e.field, ctx, tg, c1, c, |c0.words|);
      StableList(e.args, ctx, tg, c2, c, |c1.words|);
    }
  }

  lemma MakeBody(e: Expr, inside: Ctx, inner: Targets, c0: CodeObj, c1: CodeObj, c2: CodeObj, c: CodeObj)
    requires IsLoop(e) && |inside| == |inner| && WellFormed(e.body, inside) && Fits(c)
    requires |c1.words| == |c0.words| + 4 && Made(e.body, inside, inner, c1, c2)
    requires Agree(c2, c, |c1.words|, |c2.words|) && |c.words| == |c2.words| + 1
    requires OpArg(c, |c0.words|, OP_JMP, |c1.words|) && OpArg(c, |c0.words| + 2, OP_JMP, |c.words|)
    requires Op(c, |c2.words|, OP_POP)
    ensures EmittedBody(e, inside, inner, c, |c0.words|)
  {
    hide Agree, Emitted, WellFormed, Len;
    Kept(e.body, inside, inner, c1, c2, c);
  }

  lemma MakeLoop(e: Expr, exit: nat, ctx: Ctx, tg: Targets, top: nat, j: nat, b0: nat, c3: CodeObj, c4: CodeObj,
      c: CodeObj)
    requires IsLoop(e) && |ctx| == |tg|
    requires var inner := tg + [Target(j, b0 + 2)];
             && |c3.words| == b0 + 5 + Len(e.body, Inside(e, ctx)) && |c4.words| == |c3.words| + UpdateLen(e, ctx)
             && EmittedBody(e, Inside(e, ctx), inner, c3, b0) && EmittedUpdate(e, Inside(e, ctx), inner, c4, |c3.words|)
    requires Agree(c3, c, b0, |c3.words|) && Agree(c4, c, |c3.words|, |c4.words|)
    requires OpArg(c, j, exit, |c4.words| + 2) && OpArg(c, |c4.words|, OP_JMPLOOP, top)
    requires Op(c, |c4.words| + 2, OP_UNMARK) && Op(c, |c4.words| + 3, OP_PUSHNIL)
    ensures EmittedLoop(e, exit, ctx, tg, c, top, j, b0)
  {
    hide Agree, Emitted, EmittedBody, EmittedUpdate, Len;
    var inner := tg + [Target(j, b0 + 2)];
    StableBody(e, Inside(e, ctx), inner, c3, c, b0);
    StableUpdate(e, Inside(e, ctx), inner, c4, c, |c3.words|);
  }

  /** The words from `w0` to `w` leave the loops inside the one that a break or continue means, and
      jump to the end of that one or to its next round. */
  ghost predicate JumpsOut(e: Expr, ctx: Ctx, tg: Targets, w0: seq<nat>, w: seq<nat>)
    requires (e.Break? || e.Continue?) && |ctx| == |tg|
  {
    && (e.target.None? && ctx != [] ==>
          var t := tg[|ctx| - 1];
          w == w0 + (if e.Break? then [OP_BREAK, OP_PUSHEND, OP_JMP, t.breakIP % 0x1_0000]
                     else [OP_BREAK, OP_JMP, t.contIP % 0x1_0000]))
    && (e.target.Some? ==>
          forall j: nat ::
            j < |ctx| && ctx[j].tag == e.target && (forall k :: j < k < |ctx| ==> ctx[k].tag != e.target) ==>
            w == w0 + seq(|ctx| - 1 - j, _ => OP_BREAK2)
                 + (if e.Break? then [OP_BREAK, OP_PUSHEND, OP_JMP, tg[j].breakIP % 0x1_0000]
                    else [OP_BREAK, OP_JMP, tg[j].contIP % 0x1_0000]))
  }

  /** The words that a break or continue for the loop `found` appends. */
  ghost predicate OutWords(e: Expr, ctx: Ctx, tg: Targets, found: Option<nat>, w0: seq<nat>, w: seq<nat>)
    requires (e.Break? || e.Continue?) && |ctx| == |tg| && (found.Some? ==> found.value < |ctx|)
  {
    match found
    case Some(j) => w == w0 + seq(|ctx| - j - 1, _ => OP_BREAK2) + JumpEnd(e, tg[j])
    case None => w == w0 + JumpEnd(e, Target(0, 0))[1..]
  }

  function JumpEnd(e: Expr, t: Target): seq<nat> {
    if e.Break? then [OP_BREAK, OP_PUSHEND, OP_JMP, t.breakIP % (MAX_WORD + 1)]
    else [OP_BREAK, OP_JMP, t.contIP % (MAX_WORD + 1)]
  }

  lemma OutByWords(e: Expr, ctx: Ctx, tg: Targets, w0: seq<nat>, w: seq<nat>)
    requires (e.Break? || e.Continue?) && |ctx| == |tg| && (e.target.Some? ==> Resolve(ctx, e.target).Some?)
    requires OutWords(e, ctx, tg, Resolve(ctx, e.target), w0, w)
    ensures JumpsOut(e, ctx, tg, w0, w)
  {
    NoneMeant(ctx, e.target);
    if Resolve(ctx, e.target).None? { return; }
    var found := Resolve(ctx, e.target).value;
    ResolveMeans(ctx, e.target, found);
    if e.target.None? {
      assert seq(|ctx| - found - 1, _ => OP_BREAK2) == [];
    } else {
      forall j: nat | Means(ctx, e.target, j) ensures j == found {
        ResolveMeans(ctx, e.target, j);
      }
      assert forall j: nat ::
        j < |ctx| && ctx[j].tag == e.target && (forall k :: j < k < |ctx| ==> ctx[k].tag != e.target) ==>
        Means(ctx, e.target, j);
    }
  }

  lemma MakeJump(e: Expr, ctx: Ctx, tg: Targets, c0: CodeObj, c: CodeObj)
    requires (e.Break? || e.Continue?) && |ctx| == |tg| && Placed(ctx, tg, |c.words|)
    requires OutWords(e, ctx, tg, Resolve(ctx, e.target), c0.words, c.words)
    ensures Made(e, ctx, tg, c0, c)
  {
    hide Emitted, WellFormed, Len, Resolve, Unwind;
    ShapeOfControl(e, ctx, tg, c, |c0.words|);
    Parts(e, ctx);
    if Resolve(ctx, e.target).Some? {
      UnwindByWords(c, c0.words, |ctx| - Resolve(ctx, e.target).value);
    }
  }

  lemma UnwindByWords(c: CodeObj, w0: seq<nat>, n: nat)
    requires n > 0 && w0 + seq(n - 1, _ => OP_BREAK2) + [OP_BREAK] <= c.words
    ensures Unwind(c, |w0|, n)
  {
    var w := w0 + seq(n - 1, _ => OP_BREAK2) + [OP_BREAK];
    assert forall i :: 0 <= i < |w| ==> c.words[i] == w[i];
  }

  /** The targets of the open loops lie in the code. */
  ghost predicate Placed(ctx: Ctx, tg: Targets, size: nat)
    requires |ctx| == |tg|
  {
    forall i :: 0 <= i < |ctx| && ctx[i].open ==> tg[i].breakIP <= size && tg[i].contIP <= size
  }

  lemma StillPlaced(ctx: Ctx, tg: Targets, n: nat, size: nat, size1: nat)
    requires n <= |ctx| == |tg| && Placed(ctx, tg, size) && size <= size1
    ensures Placed(ctx[..n], tg[..n], size1)
  {
  }

  /** Once both its targets are known, a loop can be opened. */
  lemma OpenedPlaced(ctx: Ctx, tg: Targets, sc: Scope, t: Target, size: nat)
    requires |ctx| == |tg| && Placed(ctx, tg, size)
    requires sc.open ==> t.breakIP <= size && t.contIP <= size
    ensures Placed(ctx + [sc], tg + [t], size)
  {
  }

  /** The strings in a pool have different texts, so that each text has one object; it is
      the symbol unless some literal came first. */
  ghost predicate PoolOk(consts: seq<Value>, self: nat, lits: set<string>) {
    && (forall i, j :: 0 <= i < j < |consts| && consts[i].Str? && consts[j].Str? ==> consts[i].s != consts[j].s)
    && (forall i :: 0 <= i < |consts| && consts[i].Str? && consts[i].id != Interned ==>
          consts[i].id == Pooled(self, i) && consts[i].s in lits)
  }

  /** The object that a pool has for a text. */
  function ObjectOf(consts: seq<Value>, x: string): Ident {
    if consts == [] then Interned
    else if consts[0].Str? && consts[0].s == x then consts[0].id
    else ObjectOf(consts[1..], x)
  }

  lemma {:induction false} ObjectIsThere(consts: seq<Value>, x: string)
    ensures ObjectOf(consts, x) == Interned || Str(x, ObjectOf(consts, x)) in consts
    ensures forall i :: 0 <= i < |consts| && consts[i].Str? && consts[i].s == x
                        && (forall j :: 0 <= j < i ==> !(consts[j].Str? && consts[j].s == x)) ==>
              consts[i].id == ObjectOf(consts, x)
  {
    if consts != [] && !(consts[0].Str? && consts[0].s == x) {
      ObjectIsThere(consts[1..], x);
      assert forall i :: 0 < i < |consts| ==> consts[i] == consts[1..][i - 1];
    }
  }

  /** What the constants of a function have for each text: the symbol, but for the literals. */
  lemma PoolShares(c: CodeObj, self: nat, lits: set<string>)
    requires PoolOk(c.consts, self, lits)
    ensures Shares(c, x => ObjectOf(c.consts, x))
    ensures forall x :: x !in lits ==> ObjectOf(c.consts, x) == Interned
  {
    forall k | 0 <= k < |c.consts| && c.consts[k].Str?
      ensures c.consts[k].id == ObjectOf(c.consts, c.consts[k].s)
    {
      ObjectIsThere(c.consts, c.consts[k].s);
    }
    forall x | x !in lits
      ensures ObjectOf(c.consts, x) == Interned
    {
      ObjectIsThere(c.consts, x);
    }
  }

  class CodeGenerator {
    /** Which function this is, and what its string literals are among. */
    const self: nat
    ghost const lits: set<string>
    var byteCode: seq<nat>
    var consts: seq<Value>
    /** The enclosing loops, outermost first, and their jump targets. */
    var ctx: Ctx
    var targets: Targets

    ghost function Code(): CodeObj
      reads this
    {
      CodeObj(byteCode, consts)
    }

    ghost predicate Valid()
      reads this
    {
      |ctx| == |targets| && Placed(ctx, targets, |byteCode|) && PoolOk(consts, self, lits)
    }

    /** The state after a step that began with code `c0` and loops `ctx0`, `tg0`. */
    ghost predicate Grew(c0: CodeObj, ctx0: Ctx, tg0: Targets)
      reads this
    {
      Valid() && ctx == ctx0 && targets == tg0 && Grown(c0, Code())
    }

    ghost predicate TooManyConstants()
      reads this
    {
      |consts| > MAX_WORD + 1
    }

    /** The result of generating `e`: either its code, or an error with a cause. */
    ghost predicate Generated(e: Expr, c0: CodeObj, ctx0: Ctx, tg0: Targets, r: Check)
      requires |ctx0| == |tg0|
      reads this
    {
      && (r.Pass? ==> Grew(c0, ctx0, tg0) && Made(e, ctx0, tg0, c0, Code()))
      && (r.Error? ==> !WellFormed(e, ctx0) || TooManyConstants())
    }

    constructor (self: nat, ghost lits: set<string>)
      ensures Valid() && byteCode == [] && consts == [] && ctx == [] && targets == []
      ensures this.self == self && this.lits == lits
    {
      this.self, this.lits := self, lits;
      byteCode, consts, ctx, targets := [], [], [], [];
    }

    // ----- the buffer -----

    /** Words are 16 bits wide. */
    method Emit(val: nat)
      requires Valid()
      modifies this`byteCode
      ensures Valid() && byteCode == old(byteCode) + [val % 0x1_0000]
    {
      byteCode := byteCode + [val % (MAX_WORD + 1)];
    }

    method EmitImmediate(val: nat, arg: nat)
      requires Valid()
      modifies this`byteCode
      ensures Valid() && byteCode == old(byteCode) + [val % 0x1_0000, arg % 0x1_0000]
    {
      Emit(val);
      Emit(arg);
    }

    /** Emits a jump with a dummy address; returns where the address goes. */
    method EmitJump(op: nat) returns (ip: nat)
      requires Valid()
      modifies this`byteCode
      ensures Valid() && byteCode == old(byteCode) + [op % 0x1_0000, 0xffff] && ip == |old(byteCode)| + 1
    {
      Emit(op);
      ip := |byteCode|;
      Emit(0xffff);
    }

    /** Points an earlier jump at the current end of the code. */
    method FixJumpTarget(spot: nat)
      requires Valid() && spot < |byteCode|
      modifies this`byteCode
      ensures Valid() && byteCode == old(byteCode)[spot := |old(byteCode)| % 0x1_0000]
    {
      byteCode := byteCode[spot := |byteCode| % (MAX_WORD + 1)];
    }

    // ----- constants -----

    /** The object that is made for a literal. */
    function Literal(x: string): Value
      reads this
    {
      Str(x, Pooled(self, |consts|))
    }

    ghost predicate MayEnter(v: Value)
      reads this
    {
      v.Str? ==> v == Text(v.s) || (v == Literal(v.s) && v.s in lits)
    }

    /** Finds a constant in the pool or adds it: of one text only the first object is kept,
        and code objects are never shared. */
    method InternConstant(v: Value) returns (r: Check, i: nat)
      requires PoolOk(consts, self, lits) && MayEnter(v)
      modifies this`consts
      ensures PoolOk(consts, self, lits)
      ensures old(consts) <= consts && i < |consts| && Key(consts[i]) == Key(v)
      ensures v.Code? || (forall k :: k in old(consts) ==> Key(k) != Key(v)) ==> consts == old(consts) + [v]
      ensures !v.Code? && (exists k :: k in old(consts) && Key(k) == Key(v)) ==> consts == old(consts)
      ensures r.Pass? ==> i <= 0xffff
      ensures r.Error? ==> TooManyConstants()
    {
      var n := |consts|;
      i := 0;
      if !v.Code? {
        while i < n
          invariant 0 <= i <= n
          invariant forall k :: 0 <= k < i ==> Key(consts[k]) != Key(v)
        {
          if Key(consts[i]) == Key(v) {
            if i > MAX_WORD { return Error("too many constants in code block"), i; }
            return Pass, i;
          }
          i := i + 1;
        }
      }
      consts := consts + [v];
      i := n;
      r := if i > MAX_WORD then Error("too many constants in code block") else Pass;
    }

    /** An instruction whose argument is a constant. */
    method EmitConst(op: nat, v: Value) returns (r: Check)
      requires Valid() && op <= MAX_WORD && MayEnter(v)
      modifies this`byteCode, this`consts
      ensures r.Pass? ==> Valid() && Grown(old(Code()), Code()) && |byteCode| == |old(byteCode)| + 2
      ensures r.Pass? ==> OpConst(Code(), |old(byteCode)|, op, v)
      ensures r.Error? ==> TooManyConstants()
    {
      hide PoolOk, Placed;
      StillPlaced(ctx, targets, |ctx|, |byteCode|, |byteCode| + 2);
      assert ctx[..|ctx|] == ctx && targets[..|ctx|] == targets;
      var i :- InternConstant(v);
      EmitImmediate(op, i);
      r := Pass;
    }

    method GenNumber(n: real) returns (r: Check)
      requires Valid()
      modifies this`byteCode, this`consts
      ensures r.Pass? ==> Valid() && Grown(old(Code()), Code()) && |byteCode| == |old(byteCode)| + NumLen(n)
      ensures r.Pass? ==> NumAt(Code(), |old(byteCode)|, n)
      ensures r.Error? ==> TooManyConstants()
    {
      if n == 1.0 {
        Emit(OP_PUSHONE);
      } else if n == 0.0 {
        Emit(OP_PUSHZERO);
      } else {
        :- EmitConst(OP_PUSHCONST, Num(n));
      }
      r := Pass;
    }

    // ----- expressions -----

    method GenLeaf(e: Expr) returns (r: Check)
      requires Valid() && LiteralsIn(e, lits) && IsLeaf(e)
      modifies this
      ensures Generated(e, old(Code()), old(ctx), old(targets), r)
      decreases e, 1
    {
      hide PoolOk, Emitted, WellFormed, Len, Made, NumAt, NumLen;
      ghost var c0, tg := Code(), targets;
      match e {
        case NilLit => Emit(OP_PUSHNIL);
        case NumLit(n) => :- GenNumber(n);
        case StrLit(s) => :- EmitConst(OP_PUSHCONST, Literal(s));
        case SymLit(s) => :- EmitConst(OP_PUSHCONST, Text(s));
        case Lambda(i) => :- EmitConst(OP_PUSHCONST, Value.Code(i));
        case Sym(x) => :- EmitConst(OP_LOCAL, Text(x));
        case NewVec => Emit(OP_NEWVEC);
        case NewHash => Emit(OP_NEWHASH);
      }
      MakeLeaf(e, ctx, tg, c0, Code());
      r := Pass;
    }

    /** A minus sign is folded into the number it stands before, unless it stands right
        after another operator. */
    method GenUnary(e: Expr) returns (r: Check)
      requires Valid() && LiteralsIn(e, lits) && e.Unary?
      modifies this
      ensures Generated(e, old(Code()), old(ctx), old(targets), r)
      decreases e, 1
    {
      hide PoolOk, Emitted, WellFormed, Len, Placed;
      ghost var c0, tg := Code(), targets;
      if Folds(e) {
        :- GenNumber(-e.arg.n);
      } else {
        Parts(e, ctx);
        :- GenExpr(e.arg);
        ghost var c1 := Code();
        Emit(UnaryCode(e.uop));
        if WellFormed(e, ctx) && Fits(Code()) { Kept(e.arg, ctx, tg, c0, c1, Code()); }
      }
      ShapeOfOperation(e, ctx, tg, Code(), |c0.words|);
      r := Pass;
    }

    method GenBinOp(e: Expr) returns (r: Check)
      requires Valid() && LiteralsIn(e, lits) && e.Binary?
      modifies this
      ensures Generated(e, old(Code()), old(ctx), old(targets), r)
      decreases e, 1
    {
      hide PoolOk, Emitted, WellFormed, Len, Placed;
      ghost var c0, tg := Code(), targets;
      Parts(e, ctx);
      :- GenExpr(e.left);
      ghost var c1 := Code();
      :- GenExpr(e.right);
      ghost var c2 := Code();
      Emit(BinaryCode(e.op));
      if WellFormed(e, ctx) && Fits(Code()) {
        Kept(e.left, ctx, tg, c0, c1, Code());
        Kept(e.right, ctx, tg, c1, c2, Code());
      }
      ShapeOfOperation(e, ctx, tg, Code(), |c0.words|);
      r := Pass;
    }

    method GenHashElem(e: Expr) returns (r: Check)
      requires Valid() && LiteralsIn(e, lits) && e.HashAppend?
      modifies this
      ensures Generated(e, old(Code()), old(ctx), old(targets), r)
      decreases e, 1
    {
      hide PoolOk, Emitted, WellFormed, Len, Placed;
      ghost var c0, tg := Code(), targets;
      Parts(e, ctx);
      :- GenExpr(e.hash);
      ghost var c1 := Code();
      :- GenExpr(e.key);
      ghost var c2 := Code();
      :- GenExpr(e.val);
      ghost var c3 := Code();
      Emit(OP_HAPPEND);
      if WellFormed(e, ctx) && Fits(Code()) {
        Kept(e.hash, ctx, tg, c0, c1, Code());
        Kept(e.key, ctx, tg, c1, c2, Code());
        Kept(e.val, ctx, tg, c2, c3, Code());
      }
      ShapeOfOperation(e, ctx, tg, Code(), |c0.words|);
      r := Pass;
    }

    method GenMember(e: Expr) returns (r: Check)
      requires Valid() && LiteralsIn(e, lits) && e.Member?
      modifies this
      ensures Generated(e, old(Code()), old(ctx), old(targets), r)
      decreases e, 1
    {
      hide PoolOk, Emitted, WellFormed, Len, Placed;
      ghost var c0, tg := Code(), targets;
      Parts(e, ctx);
      :- GenExpr(e.obj);
      ghost var c1 := Code();
      :- EmitConst(OP_MEMBER, Text(e.field));
      if WellFormed(e, ctx) && Fits(Code()) { Kept(e.obj, ctx, tg, c0, c1, Code()); }
      ShapeOfOperation(e, ctx, tg, Code(), |c0.words|);
      r := Pass;
    }

    method GenShortCircuit(e: Expr) returns (r: Check)
      requires Valid() && LiteralsIn(e, lits) && (e.And? || e.Or?)
      modifies this
      ensures Generated(e, old(Code()), old(ctx), old(targets), r)
      decreases e, 1
    {
      hide PoolOk, Emitted, WellFormed, Len, Made, Placed;
      ghost var c0, tg := Code(), targets;
      Parts(e, ctx);
      :- GenExpr(e.left);
      ghost var c1 := Code();
      var end := EmitJump(if e.And? then OP_JIFNOT else OP_JIFTRUE);
      Emit(OP_POP);
      ghost var c2 := Code();
      :- GenExpr(e.right);
      ghost var c3 := Code();
      FixJumpTarget(end);
      MakeShort(e, ctx, tg, c0, c1, c2, c3, Code());
      r := Pass;
    }

    method GenIf(e: Expr) returns (r: Check)
      requires Valid() && LiteralsIn(e, lits) && e.Cond?
      modifies this
      ensures Generated(e, old(Code()), old(ctx), old(targets), r)
      decreases e, 1
    {
      hide PoolOk, Emitted, WellFormed, Len, Made, Placed;
      ghost var c0, tg := Code(), targets;
      Parts(e, ctx);
      :- GenExpr(e.test);
      ghost var c1 := Code();
      var jumpNext := EmitJump(OP_JIFNOTPOP);
      :- GenBranches(e, jumpNext, c0, c1);
      r := Pass;
    }

    /** The two branches behind the test, whose jump is patched on the way. */
    method GenBranches(e: Expr, jumpNext: nat, ghost c0: CodeObj, ghost c1: CodeObj) returns (r: Check)
      requires Valid() && LiteralsIn(e, lits) && e.Cond? && Grown(c0, c1) && Made(e.test, ctx, targets, c0, c1)
      requires Code() == CodeObj(c1.words + [OP_JIFNOTPOP, MAX_WORD], c1.consts) && jumpNext == |c1.words| + 1
      modifies this
      ensures Generated(e, c0, old(ctx), old(targets), r)
      decreases e, 0
    {
      hide PoolOk, Emitted, WellFormed, Len, Made, Placed, Agree, OpArg;
      ghost var tg, c2 := targets, Code();
      Parts(e, ctx);
      :- GenExpr(e.thn);
      ghost var c3 := Code();
      var jumpEnd := EmitJump(OP_JMP);
      FixJumpTarget(jumpNext);
      ghost var c4 := Code();
      :- GenExpr(e.els);
      ghost var c5 := Code();
      FixJumpTarget(jumpEnd);
      CondWords(c0, c1, c2, c3, c4, c5, Code());
      MakeCond(e, ctx, tg, c0, c1, c2, c3, c4, c5, Code());
      r := Pass;
    }

    method GenExprList(e: Expr) returns (r: Check)
      requires Valid() && LiteralsIn(e, lits) && e.Semi?
      modifies this
      ensures Generated(e, old(Code()), old(ctx), old(targets), r)
      decreases e, 1
    {
      hide PoolOk, Emitted, WellFormed, Len, Placed;
      ghost var c0, tg := Code(), targets;
      Parts(e, ctx);
      :- GenExpr(e.first);
      ghost var c1 := Code();
      Emit(OP_POP);
      ghost var c2 := Code();
      :- GenExpr(e.rest);
      if WellFormed(e, ctx) && Fits(Code()) {
        Kept(e.first, ctx, tg, c0, c1, Code());
        Kept(e.rest, ctx, tg, c2, Code(), Code());
      }
      ShapeOfControl(e, ctx, tg, Code(), |c0.words|);
      r := Pass;
    }

    // ----- lists and assignment targets -----

    method GenList(es: Exprs) returns (r: Check)
      requires Valid() && LiteralsInList(es, lits)
      modifies this
      ensures r.Pass? ==> Grew(old(Code()), old(ctx), old(targets))
      ensures r.Pass? ==> MadeList(es, old(ctx), old(targets), old(Code()), Code())
      ensures r.Error? ==> !WellFormedList(es, old(ctx)) || TooManyConstants()
      decreases es, 0
    {
      hide PoolOk, Emitted, WellFormed, Len, Placed;
      ghost var c0, tg := Code(), targets;
      if es.More? {
        :- GenExpr(es.head);
        ghost var c1 := Code();
        :- GenList(es.tail);
        if WellFormedList(es, ctx) && Fits(Code()) { Kept(es.head, ctx, tg, c0, c1, Code()); }
      }
      r := Pass;
    }

    /** The values of a parallel assignment, last one first. */
    method GenCommaList(es: Exprs) returns (r: Check)
      requires Valid() && LiteralsInList(es, lits)
      modifies this
      ensures r.Pass? ==> Grew(old(Code()), old(ctx), old(targets))
      ensures r.Pass? ==> MadeReverse(es, old(ctx), old(targets), old(Code()), Code())
      ensures r.Error? ==> !WellFormedList(es, old(ctx)) || TooManyConstants()
      decreases es, 0
    {
      hide PoolOk, Emitted, WellFormed, Len, Placed;
      ghost var c0, tg := Code(), targets;
      if es.More? {
        :- GenCommaList(es.tail);
        ghost var c1 := Code();
        :- GenExpr(es.head);
        if WellFormedList(es, ctx) && Fits(Code()) {
          StableReverse(es.tail, ctx, tg, c1, Code(), |c0.words|);
        }
      }
      r := Pass;
    }

    method GenLValue(lv: LValue) returns (r: Check)
      requires Valid() && LiteralsInLV(lv, lits)
      modifies this
      ensures r.Pass? ==> Grew(old(Code()), old(ctx), old(targets))
      ensures r.Pass? ==> MadeTarget(lv, old(ctx), old(targets), old(Code()), Code())
      ensures r.Error? ==> !WellFormedLV(lv, old(ctx)) || TooManyConstants()
      decreases lv, 0
    {
      hide PoolOk, Emitted, WellFormed, Len, Placed;
      ghost var c0, tg := Code(), targets;
      match lv {
        case LSym(x) => :- EmitConst(OP_PUSHCONST, Text(x));
        case LVar(x) => :- EmitConst(OP_PUSHCONST, Text(x));
        case LMember(obj, f) =>
          :- GenExpr(obj);
          ghost var c1 := Code();
          :- EmitConst(OP_PUSHCONST, Text(f));
          if WellFormed(obj, ctx) && Fits(Code()) { Kept(obj, ctx, tg, c0, c1, Code()); }
        case LIndex(box, key) =>
          :- GenExpr(box);
          ghost var c1 := Code();
          :- GenExpr(key);
          if WellFormed(box, ctx) && Fits(Code()) { Kept(box, ctx, tg, c0, c1, Code()); }
      }
      r := Pass;
    }

    /** The operands of a target, then the store. */
    method GenStore(lv: LValue) returns (r: Check)
      requires Valid() && LiteralsInLV(lv, lits)
      modifies this
      ensures r.Pass? ==> Grew(old(Code()), old(ctx), old(targets))
      ensures r.Pass? ==> |byteCode| == |old(byteCode)| + LenTarget(lv, ctx) + 1
      ensures r.Pass? && WellFormedLV(lv, ctx) && Fits(Code()) ==>
                EmittedStore(lv, ctx, targets, Code(), |old(byteCode)|)
      ensures r.Error? ==> !WellFormedLV(lv, old(ctx)) || TooManyConstants()
      decreases lv, 1
    {
      hide PoolOk, Emitted, WellFormed, Len, EmittedTarget;
      ghost var c0 := Code();
      :- GenLValue(lv);
      ghost var c1 := Code();
      Emit(StoreCode(lv));
      if WellFormedLV(lv, ctx) && Fits(Code()) {
        StableTarget(lv, ctx, targets, c1, Code(), |c0.words|);
      }
      r := Pass;
    }

    /** Several stores, popping the value between two of them. */
    method GenMultiLV(lvs: LValues) returns (r: Check)
      requires Valid() && LiteralsInLVs(lvs, lits)
      modifies this
      ensures r.Pass? ==> Grew(old(Code()), old(ctx), old(targets))
      ensures r.Pass? ==> MadeTargets(lvs, old(ctx), old(targets), old(Code()), Code())
      ensures r.Error? ==> !WellFormedLVs(lvs, old(ctx)) || TooManyConstants()
      decreases lvs, 0
    {
      hide PoolOk, Emitted, WellFormed, Len, Placed;
      ghost var c0, tg := Code(), targets;
      :- GenStore(lvs.lv);
      if lvs.MoreLV? {
        ghost var c1 := Code();
        Emit(OP_POP);
        :- GenMultiLV(lvs.rest);
        if WellFormedLVs(lvs, ctx) && Fits(Code()) {
          StableStore(lvs.lv, ctx, tg, c1, Code(), |c0.words|);
        }
      }
      r := Pass;
    }

    method GenAssign(e: Expr) returns (r: Check)
      requires Valid() && LiteralsIn(e, lits) && e.Assign?
      modifies this
      ensures Generated(e, old(Code()), old(ctx), old(targets), r)
      decreases e, 1
    {
      hide PoolOk, Emitted, WellFormed, Len, Placed;
      ghost var c0, tg := Code(), targets;
      hide EmittedStore;
      Parts(e, ctx);
      :- GenExpr(e.rhs);
      ghost var c1 := Code();
      :- GenStore(e.lv);
      if WellFormed(e, ctx) && Fits(Code()) { Kept(e.rhs, ctx, tg, c0, c1, Code()); }
      ShapeOfOperation(e, ctx, tg, Code(), |c0.words|);
      r := Pass;
    }

    method GenEqOp(e: Expr) returns (r: Check)
      requires Valid() && LiteralsIn(e, lits) && e.OpAssign?
      modifies this
      ensures Generated(e, old(Code()), old(ctx), old(targets), r)
      decreases e, 1
    {
      hide PoolOk, Emitted, WellFormed, Len, Made, Placed;
      ghost var c0, tg := Code(), targets;
      hide EmittedTarget, LenTarget;
      Parts(e, ctx);
      :- GenLValue(e.lv);
      ghost var c1 := Code();
      :- GenLoad(e.lv);
      ghost var c2 := Code();
      :- GenExpr(e.rhs);
      ghost var c3 := Code();
      EmitBack(e);
      MakeOpAssign(e, ctx, tg, c0, c1, c2, c3, Code());
      r := Pass;
    }

    /** Computes the new value and stores it. */
    method EmitBack(e: Expr)
      requires Valid() && e.OpAssign?
      modifies this`byteCode
      ensures Valid() && byteCode == old(byteCode)
        + [BinaryCode(e.op), if e.lv.LSym? || e.lv.LVar? then OP_XCHG else OP_XCHG2, StoreCode(e.lv)]
    {
      Emit(BinaryCode(e.op));
      Emit(if e.lv.LSym? || e.lv.LVar? then OP_XCHG else OP_XCHG2);
      Emit(StoreCode(e.lv));
    }

    /** Reads a target whose operands are on the stack, and keeps them there. */
    method GenLoad(lv: LValue) returns (r: Check)
      requires Valid()
      modifies this`byteCode, this`consts
      ensures r.Pass? ==> Valid() && Grown(old(Code()), Code()) && |byteCode| == |old(byteCode)| + LoadLen(lv)
      ensures r.Pass? ==> LoadAt(lv, Code(), |old(byteCode)|)
      ensures r.Error? ==> TooManyConstants()
    {
      match lv {
        case LMember(_, f) =>
          Emit(OP_DUP2);
          Emit(OP_POP);
          :- EmitConst(OP_MEMBER, Text(f));
        case LIndex(_, _) =>
          Emit(OP_DUP2);
          Emit(OP_EXTRACT);
        case LSym(x) => :- EmitConst(OP_LOCAL, Text(x));
        case LVar(x) => :- EmitConst(OP_LOCAL, Text(x));
      }
      r := Pass;
    }

    method GenMultiAssign(e: Expr) returns (r: Check)
      requires Valid() && LiteralsIn(e, lits) && e.MultiAssign?
      modifies this
      ensures Generated(e, old(Code()), old(ctx), old(targets), r)
      decreases e, 1
    {
      hide PoolOk, Emitted, WellFormed, Len, Placed;
      ghost var c0, tg := Code(), targets;
      hide EmittedTargets, EmittedReverse, LenTargets, LenList;
      Parts(e, ctx);
      if CountLV(e.lvs) != Count(e.rvs) { return Error("bad assignment count"); }
      :- GenCommaList(e.rvs);
      ghost var c1 := Code();
      :- GenMultiLV(e.lvs);
      if WellFormed(e, ctx) && Fits(Code()) {
        StableReverse(e.rvs, ctx, tg, c1, Code(), |c0.words|);
      }
      ShapeOfOperation(e, ctx, tg, Code(), |c0.words|);
      r := Pass;
    }

    method GenUnpack(e: Expr) returns (r: Check)
      requires Valid() && LiteralsIn(e, lits) && e.Unpack?
      modifies this
      ensures Generated(e, old(Code()), old(ctx), old(targets), r)
      decreases e, 1
    {
      hide PoolOk, Emitted, WellFormed, Len, Placed;
      ghost var c0, tg := Code(), targets;
      hide EmittedTargets;
      Parts(e, ctx);
      TargetsFit(e.lvs, ctx);
      :- GenExpr(e.rhs);
      ghost var c1 := Code();
      EmitImmediate(OP_UNPACK, CountLV(e.lvs));
      ghost var c2 := Code();
      :- GenMultiLV(e.lvs);
      if WellFormed(e, ctx) && Fits(Code()) { Kept(e.rhs, ctx, tg, c0, c1, Code()); }
      ShapeOfOperation(e, ctx, tg, Code(), |c0.words|);
      r := Pass;
    }

    // ----- calls -----

    method GenCall(e: Expr) returns (r: Check)
      requires Valid() && LiteralsIn(e, lits) && e.Call?
      modifies this
      ensures Generated(e, old(Code()), old(ctx), old(targets), r)
      decreases e, 1
    {
      hide PoolOk, Emitted, WellFormed, Len, Placed;
      ghost var c0, tg := Code(), targets;
      hide EmittedList;
      Parts(e, ctx);
      CountFits(e.args, ctx);
      :- GenExpr(e.f);
      ghost var c1 := Code();
      :- GenList(e.args);
      ghost var c2 := Code();
      EmitImmediate(OP_FCALL, Count(e.args));
      if WellFormed(e, ctx) && Fits(Code()) {
        Kept(e.f, ctx, tg, c0, c1, Code());
        StableList(e.args, ctx, tg, c2, Code(), |c1.words|);
      }
      ShapeOfOperation(e, ctx, tg, Code(), |c0.words|);
      r := Pass;
    }

    /** The receiver, and above it the method found in it. */
    method GenMethod(obj: Expr, field: string) returns (r: Check)
      requires Valid() && LiteralsIn(obj, lits)
      modifies this
      ensures r.Pass? ==> Grew(old(Code()), old(ctx), old(targets))
      ensures r.Pass? ==> |byteCode| == |old(byteCode)| + Len(obj, ctx) + 3
      ensures r.Pass? && WellFormed(obj, ctx) && Fits(Code()) ==>
                EmittedMethod(obj, field, ctx, targets, Code(), |old(byteCode)|)
      ensures r.Error? ==> !WellFormed(obj, old(ctx)) || TooManyConstants()
      decreases obj, 4
    {
      hide PoolOk, LiteralsIn, Emitted, WellFormed, Len, EmittedMethod, Placed;
      ghost var c0, tg := Code(), targets;
      :- GenExpr(obj);
      ghost var c1 := Code();
      Emit(OP_DUP);
      :- EmitConst(OP_MEMBER, Text(field));
      if WellFormed(obj, ctx) && Fits(Code()) { MakeMethod(obj, field, ctx, tg, c0, c1, Code()); }
      r := Pass;
    }

    method GenMethodCall(e: Expr) returns (r: Check)
      requires Valid() && LiteralsIn(e, lits) && e.MethodCall?
      modifies this
      ensures Generated(e, old(Code()), old(ctx), old(targets), r)
      decreases e, 1
    {
      hide PoolOk, Emitted, WellFormed, Len, Placed, EmittedMethod, MadeList, Made;
      ghost var c0, tg := Code(), targets;
      Parts(e, ctx);
      :- GenMethod(e.obj, e.field);
      ghost var c1 := Code();
      :- GenList(e.args);
      ghost var c2 := Code();
      EmitImmediate(OP_MCALL, Count(e.args));
      assert |c2.words| == |c1.words| + LenList(e.args, ctx) by { MadeListLen(e.args, ctx, tg, c1, c2); }
      MakeMethodCall(e, ctx, tg, c0, c1, c2, Code());
      r := Pass;
    }

    method GenNamedCall(e: Expr) returns (r: Check)
      requires Valid() && LiteralsIn(e, lits) && e.NamedCall?
      modifies this
      ensures Generated(e, old(Code()), old(ctx), old(targets), r)
      decreases e, 1
    {
      hide PoolOk, Emitted, WellFormed, Len, Placed;
      ghost var c0, tg := Code(), targets;
      Parts(e, ctx);
      :- GenExpr(e.f);
      ghost var c1 := Code();
      :- GenExpr(e.named);
      ghost var c2 := Code();
      Emit(OP_FCALLH);
      if WellFormed(e, ctx) && Fits(Code()) {
        Kept(e.f, ctx, tg, c0, c1, Code());
        Kept(e.named, ctx, tg, c1, c2, Code());
      }
      ShapeOfOperation(e, ctx, tg, Code(), |c0.words|);
      r := Pass;
    }

    method GenNamedMethodCall(e: Expr) returns (r: Check)
      requires Valid() && LiteralsIn(e, lits) && e.NamedMethodCall?
      modifies this
      ensures Generated(e, old(Code()), old(ctx), old(targets), r)
      decreases e, 1
    {
      hide PoolOk, Emitted, WellFormed, Len, Placed;
      ghost var c0, tg := Code(), targets;
      hide EmittedMethod;
      Parts(e, ctx);
      :- GenMethod(e.obj, e.field);
      ghost var c1 := Code();
      :- GenExpr(e.named);
      ghost var c2 := Code();
      Emit(OP_MCALLH);
      if WellFormed(e, ctx) && Fits(Code()) {
        StableMethod(e.obj, e.field, ctx, tg, c1, Code(), |c0.words|);
        Kept(e.named, ctx, tg, c1, c2, Code());
      }
      ShapeOfOperation(e, ctx, tg, Code(), |c0.words|);
      r := Pass;
    }

    // ----- loops and jumps -----

    /** Opens a loop whose targets are not known yet; returns where it starts. */
    method StartLoop(tag: Option<string>) returns (top: nat)
      requires Valid()
      modifies this
      ensures Valid() && consts == old(consts)
      ensures ctx == old(ctx) + [Scope(tag, false)] && targets == old(targets) + [PENDING]
      ensures byteCode == old(byteCode) + [OP_MARK] && top == |byteCode|
    {
      ctx := ctx + [Scope(tag, false)];
      targets := targets + [PENDING];
      Emit(OP_MARK);
      top := |byteCode|;
    }

    /** The update of a `for` loop, its value dropped. */
    method GenUpdate(e: Expr, ghost outer: Ctx) returns (r: Check)
      requires Valid() && LiteralsIn(e, lits) && IsLoop(e) && ctx == Inside(e, outer)
      modifies this
      ensures r.Pass? ==> Grew(old(Code()), old(ctx), old(targets))
      ensures r.Pass? ==> |byteCode| == |old(byteCode)| + UpdateLen(e, outer)
      ensures r.Pass? && LoopWellFormed(e, outer) && Fits(Code()) ==>
                EmittedUpdate(e, ctx, targets, Code(), |old(byteCode)|)
      ensures r.Error? ==> !LoopWellFormed(e, outer) || TooManyConstants()
      decreases e, 0
    {
      hide PoolOk, Emitted, WellFormed, Len, Placed;
      if e.Loop? && e.update.Some? {
        ghost var c0 := Code();
        :- GenExpr(e.update.value);
        ghost var c1 := Code();
        Emit(OP_POP);
        if LoopWellFormed(e, outer) && Fits(Code()) { Kept(e.update.value, ctx, targets, c0, c1, Code()); }
      }
      r := Pass;
    }

    /** Gives the innermost loop its targets, with a jump over the continue jump;
        returns where the address of the continue jump goes. */
    method OpenLoop(tag: Option<string>, jumpEnd: nat) returns (cont: nat)
      requires Valid() && ctx != [] && ctx[|ctx| - 1] == Scope(tag, false) && 0 < jumpEnd < |byteCode|
      modifies this
      ensures var top0, b0 := |old(ctx)| - 1, |old(byteCode)|;
              && Valid() && ctx == old(ctx)[..top0] + [Scope(tag, true)]
              && targets == old(targets)[..top0] + [Target(jumpEnd - 1, b0 + 2)]
              && consts == old(consts) && cont == b0 + 3
              && byteCode == old(byteCode) + [OP_JMP, (b0 + 4) % (MAX_WORD + 1), OP_JMP, MAX_WORD]
    {
      hide Placed;
      ghost var outer, tg, b0 := ctx[..|ctx| - 1], targets[..|ctx| - 1], |byteCode|;
      var top0 := |ctx| - 1;
      StillPlaced(ctx, targets, top0, b0, b0);
      targets := targets[top0 := targets[top0].(breakIP := jumpEnd - 1)];
      OpenedPlaced(outer, tg, ctx[top0], targets[top0], b0);
      assert ctx == outer + [ctx[top0]] && targets == tg + [targets[top0]];
      var jumpOverContinue := EmitJump(OP_JMP);
      targets := targets[top0 := targets[top0].(contIP := |byteCode|)];
      ctx := ctx[top0 := Scope(tag, true)];
      StillPlaced(outer, tg, top0, b0, |byteCode|);
      assert outer[..top0] == outer && tg[..top0] == tg;
      OpenedPlaced(outer, tg, Scope(tag, true), targets[top0], |byteCode|);
      assert ctx == outer + [Scope(tag, true)] && targets == tg + [Target(jumpEnd - 1, b0 + 2)];
      cont := EmitJump(OP_JMP);
      FixJumpTarget(jumpOverContinue);
    }

    /** The body of a loop, between its continue jump and its update. */
    method GenLoopBody(e: Expr, jumpEnd: nat) returns (r: Check)
      requires Valid() && LiteralsIn(e, lits) && IsLoop(e) && ctx != [] && ctx[|ctx| - 1] == Scope(e.tag, false)
      requires 0 < jumpEnd < |byteCode|
      modifies this
      ensures var outer, tg, b0 := old(ctx)[..|old(ctx)| - 1], old(targets)[..|old(ctx)| - 1], |old(byteCode)|;
              && (r.Pass? ==>
                    && Valid() && ctx == Inside(e, outer) && targets == tg + [Target(jumpEnd - 1, b0 + 2)]
                    && |byteCode| == b0 + 5 + Len(e.body, Inside(e, outer)) && Grown(old(Code()), Code()))
              && (r.Pass? && LoopWellFormed(e, outer) && Fits(Code()) ==> EmittedBody(e, ctx, targets, Code(), b0))
              && (r.Error? ==> !LoopWellFormed(e, outer) || TooManyConstants())
      decreases e, 0
    {
      hide PoolOk, Emitted, WellFormed, Len, Placed, EmittedBody;
      ghost var c0 := Code();
      ghost var outer := ctx[..|ctx| - 1];
      var cont := OpenLoop(e.tag, jumpEnd);
      ghost var c1 := Code();
      :- GenExpr(e.body);
      ghost var c2 := Code();
      Emit(OP_POP);
      FixJumpTarget(cont);
      if LoopWellFormed(e, outer) && Fits(Code()) { MakeBody(e, ctx, targets, c0, c1, c2, Code()); }
      r := Pass;
    }

    /** Jumps back, gives the exit jump its target, and closes the loop. */
    method EndLoop(top: nat, jumpEnd: nat)
      requires Valid() && ctx != [] && jumpEnd < |byteCode|
      modifies this
      ensures var top0 := |old(ctx)| - 1;
              && Valid() && ctx == old(ctx)[..top0] && targets == old(targets)[..top0] && consts == old(consts)
              && byteCode == old(byteCode)[jumpEnd := (|old(byteCode)| + 2) % (MAX_WORD + 1)]
                             + [OP_JMPLOOP, top % (MAX_WORD + 1), OP_UNMARK, OP_PUSHNIL]
    {
      hide Placed;
      EmitImmediate(OP_JMPLOOP, top);
      FixJumpTarget(jumpEnd);
      StillPlaced(ctx, targets, |ctx| - 1, |byteCode|, |byteCode|);
      ctx, targets := ctx[..|ctx| - 1], targets[..|ctx| - 1];
      Emit(OP_UNMARK);
      Emit(OP_PUSHNIL);
    }

    /** The end of every loop, from its body on: `jumpEnd` is where the address of
        the exit jump goes, and `top` is where an iteration starts. */
    method GenLoop(e: Expr, exit: nat, top: nat, jumpEnd: nat) returns (r: Check)
      requires Valid() && LiteralsIn(e, lits) && IsLoop(e) && ctx != [] && ctx[|ctx| - 1] == Scope(e.tag, false)
      requires 0 < jumpEnd < |byteCode| && byteCode[jumpEnd - 1] == exit && top < jumpEnd
      modifies this
      ensures var outer, tg := old(ctx)[..|old(ctx)| - 1], old(targets)[..|old(ctx)| - 1];
              && (r.Pass? ==>
                    && Valid() && ctx == outer && targets == tg
                    && |byteCode| == |old(byteCode)| + LoopLen(e, outer) && old(consts) <= consts
                    && (forall i :: 0 <= i < |old(byteCode)| && i != jumpEnd ==> byteCode[i] == old(byteCode[i])))
              && (r.Pass? && LoopWellFormed(e, outer) && Fits(Code()) ==>
                    EmittedLoop(e, exit, outer, tg, Code(), top, jumpEnd - 1, |old(byteCode)|))
              && (r.Error? ==> !LoopWellFormed(e, outer) || TooManyConstants())
      decreases e, 1
    {
      hide PoolOk, LiteralsIn, Emitted, WellFormed, Len, Placed, UpdateLen;
      hide EmittedLoop, EmittedBody, EmittedUpdate, LoopWellFormed;
      ghost var b0 := |byteCode|;
      ghost var outer, tg := ctx[..|ctx| - 1], targets[..|ctx| - 1];
      :- GenLoopBody(e, jumpEnd);
      ghost var c3 := Code();
      :- GenUpdate(e, outer);
      ghost var c4 := Code();
      EndLoop(top, jumpEnd);
      if LoopWellFormed(e, outer) && Fits(Code()) {
        MakeLoop(e, exit, outer, tg, top, jumpEnd - 1, b0, c3, c4, Code());
      }
      r := Pass;
    }

    method GenForWhile(e: Expr) returns (r: Check)
      requires Valid() && LiteralsIn(e, lits) && e.Loop?
      modifies this
      ensures Generated(e, old(Code()), old(ctx), old(targets), r)
      decreases e, 2
    {
      hide PoolOk, Emitted, WellFormed, Len, Placed;
      ghost var c0, tg := Code(), targets;
      hide EmittedLoop, LoopLen;
      Parts(e, ctx);
      ghost var outer := ctx;
      var loopTop := StartLoop(e.tag);
      ghost var c1 := Code();
      assert Header(e, outer) == ctx;
      :- GenExpr(e.test);
      ghost var c2 := Code();
      var jumpEnd := EmitJump(OP_JIFNOTPOP);
      assert ctx[..|ctx| - 1] == outer && targets[..|ctx| - 1] == tg;
      :- GenLoop(e, OP_JIFNOTPOP, loopTop, jumpEnd);
      if WellFormed(e, ctx) && Fits(Code()) {
        Kept(e.test, Header(e, ctx), tg + [PENDING], c1, c2, Code());
      }
      ShapeOfControl(e, ctx, tg, Code(), |c0.words|);
      r := Pass;
    }

    /** The header of a `foreach`, which leaves its loop open; `top` is where an
        iteration starts, and the exit jump follows it. */
    method GenEachHeader(e: Expr) returns (r: Check, top: nat)
      requires Valid() && LiteralsIn(e, lits) && e.ForEach?
      modifies this
      ensures r.Pass? ==>
                && Valid() && ctx == Header(e, old(ctx)) && targets == old(targets) + [PENDING]
                && Grown(old(Code()), Code()) && top == |old(byteCode)| + Len(e.vec, old(ctx)) + 2
                && |byteCode| == top + 5 + LenTarget(e.lv, Header(e, old(ctx)))
                && byteCode[top + 1] == OP_JIFEND
      ensures r.Pass? && WellFormed(e.vec, old(ctx)) && WellFormedLV(e.lv, Header(e, old(ctx))) && Fits(Code()) ==>
                EmittedEachHeader(e, old(ctx), old(targets), Code(), |old(byteCode)|, top)
      ensures r.Error? ==>
                !WellFormed(e.vec, old(ctx)) || !WellFormedLV(e.lv, Header(e, old(ctx))) || TooManyConstants()
      decreases e, 0
    {
      hide PoolOk, Emitted, WellFormed, Len, Placed, EmittedStore, EmittedEachHeader, LenTarget;
      ghost var c0, outer, tg := Code(), ctx, targets;
      top := 0;
      :- GenExpr(e.vec);
      ghost var c1 := Code();
      top := OpenEach(e);
      assert Header(e, outer) == ctx;
      ghost var c2 := Code();
      :- GenStore(e.lv);
      ghost var c3 := Code();
      Emit(OP_POP);
      if WellFormed(e.vec, outer) && WellFormedLV(e.lv, Header(e, outer)) && Fits(Code()) {
        MakeEachHeader(e, outer, tg, c0, c1, c2, c3, Code());
      }
      r := Pass;
    }

    /** Pushes the index, opens the loop, and takes the next element or leaves. */
    method OpenEach(e: Expr) returns (top: nat)
      requires Valid() && e.ForEach?
      modifies this
      ensures Valid() && consts == old(consts) && top == |old(byteCode)| + 2
      ensures ctx == old(ctx) + [Scope(e.tag, false)] && targets == old(targets) + [PENDING]
      ensures byteCode == old(byteCode)
        + [OP_PUSHZERO, OP_MARK, if e.useIndex then OP_INDEX else OP_EACH, OP_JIFEND, MAX_WORD]
    {
      Emit(OP_PUSHZERO);
      top := StartLoop(e.tag);
      Emit(if e.useIndex then OP_INDEX else OP_EACH);
      var _ := EmitJump(OP_JIFEND);
    }

    method GenForEach(e: Expr) returns (r: Check)
      requires Valid() && LiteralsIn(e, lits) && e.ForEach?
      modifies this
      ensures Generated(e, old(Code()), old(ctx), old(targets), r)
      decreases e, 2
    {
      hide PoolOk, LiteralsIn, Emitted, WellFormed, Len, Placed, EmittedLoop, LoopLen, EmittedEachHeader;
      ghost var c0, outer, tg := Code(), ctx, targets;
      Parts(e, ctx);
      var loopTop :- GenEachHeader(e);
      ghost var c1 := Code();
      assert ctx[..|ctx| - 1] == outer && targets[..|ctx| - 1] == tg;
      :- GenLoop(e, OP_JIFEND, loopTop, loopTop + 2);
      ghost var c2 := Code();
      Emit(OP_POP);
      Emit(OP_POP);
      MakeForEach(e, outer, tg, |c0.words|, loopTop, c1, c2, Code());
      r := Pass;
    }

    /** Emits the same word `n` times. */
    method EmitRun(op: nat, n: nat)
      requires Valid() && op <= MAX_WORD
      modifies this`byteCode
      ensures Valid() && byteCode == old(byteCode) + seq(n, _ => op)
      ensures OpRun(Code(), |old(byteCode)|, op, n)
    {
      for i := 0 to n
        invariant Valid() && byteCode == old(byteCode) + seq(i, _ => op)
      {
        Emit(op);
      }
    }

    /** Gives back the marks of the inner loops and restores the height of the one meant. */
    method EmitUnwind(levels: nat)
      requires Valid() && levels > 0
      modifies this`byteCode
      ensures Valid() && byteCode == old(byteCode) + seq(levels - 1, _ => OP_BREAK2) + [OP_BREAK]
    {
      hide PoolOk, Placed;
      EmitRun(OP_BREAK2, levels - 1);
      Emit(OP_BREAK);
    }

    method EmitOut(e: Expr, found: Option<nat>)
      requires Valid() && (e.Break? || e.Continue?) && (found.Some? ==> found.value < |ctx|)
      modifies this`byteCode
      ensures Valid() && old(byteCode) <= byteCode && OutWords(e, ctx, targets, found, old(byteCode), byteCode)
    {
      hide PoolOk, Placed;
      var bp, cp := 0, 0;
      if found.Some? {
        bp, cp := targets[found.value].breakIP, targets[found.value].contIP;
        EmitUnwind(|ctx| - found.value);
      }
      if e.Break? { Emit(OP_PUSHEND); }
      EmitImmediate(OP_JMP, if e.Break? then bp else cp);
    }

    /** Leaves the loops inside the one meant and jumps to its end or its next round. Outside every
        loop the original reads below its loop stack; here the jump is then to address zero. */
    method GenBreakContinue(e: Expr) returns (r: Check)
      requires Valid() && LiteralsIn(e, lits) && (e.Break? || e.Continue?)
      modifies this
      ensures Generated(e, old(Code()), old(ctx), old(targets), r)
      ensures r.Error? <==> e.target.Some? && forall k :: 0 <= k < |old(ctx)| ==> old(ctx)[k].tag != e.target
      ensures r.Pass? ==> JumpsOut(e, old(ctx), old(targets), old(byteCode), byteCode)
      decreases e, 1
    {
      hide PoolOk, LiteralsIn, Emitted, WellFormed, Len, Made, Placed, Resolve, JumpsOut, OutWords;
      ghost var c0 := Code();
      Parts(e, ctx);
      NoneMeant(ctx, e.target);
      var found := Resolve(ctx, e.target);
      if found.None? && e.target.Some? { return Error("no match for break/continue label"); }
      EmitOut(e, found);
      MakeJump(e, ctx, targets, c0, Code());
      OutByWords(e, ctx, targets, c0.words, byteCode);
      r := Pass;
    }

    method GenReturn(e: Expr) returns (r: Check)
      requires Valid() && LiteralsIn(e, lits) && e.Return?
      modifies this
      ensures Generated(e, old(Code()), old(ctx), old(targets), r)
      decreases e, 1
    {
      hide PoolOk, Emitted, WellFormed, Len, Placed;
      ghost var c0, tg := Code(), targets;
      Parts(e, ctx);
      :- GenExpr(e.arg);
      ghost var c1 := Code();
      EmitRun(OP_UNMARK, |ctx|);
      Emit(OP_RETURN);
      if WellFormed(e, ctx) && Fits(Code()) { Kept(e.arg, ctx, tg, c0, c1, Code()); }
      ShapeOfControl(e, ctx, tg, Code(), |c0.words|);
      r := Pass;
    }

    /** Appends the code of an expression, or reports a parse error. An error
        means that the expression is not well formed, or that the constants do not
        fit; code that fits is the code of the expression. */
    method GenExpr(e: Expr) returns (r: Check)
      requires Valid() && LiteralsIn(e, lits)
      modifies this
      ensures Generated(e, old(Code()), old(ctx), old(targets), r)
      decreases e, 3
    {
      hide Generated;
      match e {
        case Unary(_, _) => r := GenUnary(e);
        case Binary(_, _, _) => r := GenBinOp(e);
        case HashAppend(_, _, _) => r := GenHashElem(e);
        case Member(_, _) => r := GenMember(e);
        case And(_, _) => r := GenShortCircuit(e);
        case Or(_, _) => r := GenShortCircuit(e);
        case Cond(_, _, _) => r := GenIf(e);
        case Semi(_, _) => r := GenExprList(e);
        case Assign(_, _) => r := GenAssign(e);
        case OpAssign(_, _, _) => r := GenEqOp(e);
        case MultiAssign(_, _) => r := GenMultiAssign(e);
        case Unpack(_, _) => r := GenUnpack(e);
        case Loop(_, _, _, _) => r := GenForWhile(e);
        case ForEach(_, _, _, _, _) => r := GenForEach(e);
        case Break(_) => r := GenBreakContinue(e);
        case Continue(_) => r := GenBreakContinue(e);
        case Return(_) => r := GenReturn(e);
        case Call(_, _) => r := GenCall(e);
        case MethodCall(_, _, _) => r := GenMethodCall(e);
        case NamedCall(_, _) => r := GenNamedCall(e);
        case NamedMethodCall(_, _, _) => r := GenNamedMethodCall(e);
        case _ => r := GenLeaf(e);
      }
    }
  }

  /** The constants that a parameter list needs. */
  ghost predicate DefaultsIn(ps: Params, lits: set<string>) {
    forall i :: 0 <= i < |ps.opts| ==>
      var d := ps.opts[i].1; !d.Code? && (d.Str? ==> d.s in lits)
  }

  /** Enters the parameters behind the constants of the body. */
  method InternParams(g: CodeGenerator, ps: Params) returns (r: Check)
    requires g.Valid() && DefaultsIn(ps, g.lits)
    modifies g`consts
    ensures g.Valid() && Grown(old(g.Code()), g.Code())
    ensures r.Error? ==> g.TooManyConstants()
  {
    hide PoolOk, Placed;
    var i := 0;
    for k := 0 to |ps.args|
      invariant g.Valid() && Grown(old(g.Code()), g.Code())
    {
      r, i := g.InternConstant(Text(ps.args[k]));
      if r.Error? { return; }
    }
    for k := 0 to |ps.opts|
      invariant g.Valid() && Grown(old(g.Code()), g.Code())
    {
      var (x, d) := ps.opts[k];
      r, i := g.InternConstant(Text(x));
      if r.Error? { return; }
      r, i := g.InternConstant(if d.Str? then g.Literal(d.s) else d);
      if r.Error? { return; }
    }
    r, i := g.InternConstant(Text(ps.rest));
  }

  /** The code object of function `self`: the code of its body, then the return. An error
      leaves the generator's last state in `c`. */
  method GenCode(body: Expr, ps: Params, self: nat, ghost lits: set<string>) returns (r: Check, c: CodeObj)
    requires LiteralsIn(body, lits) && DefaultsIn(ps, lits)
    ensures r.Pass? && WellFormed(body, []) && Fits(c) ==> LinkedBody(body, c)
    ensures r.Pass? ==> |c.words| == Len(body, []) + 1 && PoolOk(c.consts, self, lits)
    ensures r.Error? ==> !WellFormed(body, []) || |c.consts| > MAX_WORD + 1
  {
    hide PoolOk, Emitted, WellFormed, Len;
    var g := new CodeGenerator(self, lits);
    ghost var c0 := g.Code();
    r := g.GenExpr(body);
    if r.Error? { return r, CodeObj(g.byteCode, g.consts); }
    ghost var c1 := g.Code();
    g.Emit(OP_RETURN);
    r := InternParams(g, ps);
    c := CodeObj(g.byteCode, g.consts);
    if WellFormed(body, []) && Fits(c) { Kept(body, [], [], c0, c1, c); }
  }

  /** The parameters with the objects that the pool has for their texts. */
  function Named(ps: Params, c: CodeObj): Params { ps.(names := x => ObjectOf(c.consts, x)) }

  /** Compiles every function of a program. The image tells which object each function has for
      each text: that is the symbol unless one of the function's literals spells it. */
  method GenProgram(p: Program, ghost lits: seq<set<string>>) returns (r: Check, m: Image)
    requires |p.params| == |p.bodies| == |lits|
    requires forall i :: 0 <= i < |lits| ==> LiteralsIn(p.bodies[i], lits[i]) && DefaultsIn(p.params[i], lits[i])
    ensures m.host == p.host && (r.Pass? ==> |m.codes| == |m.params| == |p.bodies|)
    ensures r.Pass? ==> forall i :: 0 <= i < |p.bodies| ==> m.params[i] == Named(p.params[i], m.codes[i])
    ensures r.Pass? && (forall i :: 0 <= i < |p.bodies| ==> WellFormed(p.bodies[i], []) && Fits(m.codes[i])) ==>
              Linked(p.(params := m.params), m)
    ensures r.Pass? ==> forall i, x :: 0 <= i < |p.bodies| && x !in lits[i] ==> m.params[i].names(x) == Interned
    ensures r.Error? ==> |m.codes| < |p.bodies|
  {
    hide LinkedBody, WellFormed, Fits, Len, PoolOk, LiteralsIn, DefaultsIn, Shares;
    var codes, params := [], [];
    for i := 0 to |p.bodies|
      invariant |codes| == |params| == i
      invariant forall k :: 0 <= k < i ==>
        params[k] == Named(p.params[k], codes[k]) && Shares(codes[k], params[k].names)
      invariant forall k, x :: 0 <= k < i && x !in lits[k] ==> params[k].names(x) == Interned
      invariant forall k :: 0 <= k < i && WellFormed(p.bodies[k], []) && Fits(codes[k]) ==>
                              LinkedBody(p.bodies[k], codes[k])
    {
      var check, c := GenCode(p.bodies[i], p.params[i], i, lits[i]);
      if check.Error? { return check, Image(p.host, params, codes); }
      PoolShares(c, i, lits[i]);
      codes, params := codes + [c], params + [Named(p.params[i], c)];
    }
    return Pass, Image(p.host, params, codes);
  }
}
