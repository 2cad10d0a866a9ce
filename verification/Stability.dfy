/** Code that has been emitted stays emitted: later words, later patches and
    later constants do not disturb it. */
module Stability {
  import opened Basics
  import opened Values
  import opened Syntax
  import opened Machine
  import opened Layout

  /** `d` has the same words as `c` between two addresses, and at least its
      constants. */
  ghost predicate Agree(c: CodeObj, d: CodeObj, lo: nat, hi: nat) {
    && hi <= |c.words| && hi <= |d.words| && c.consts <= d.consts
    && forall i :: lo <= i < hi ==> c.words[i] == d.words[i]
  }

  lemma StableUnary(e: Expr, ctx: Ctx, tg: Targets, c: CodeObj, d: CodeObj, at: nat)
    requires e.Unary? && |ctx| == |tg| && EmittedUnary(e, ctx, tg, c, at)
    requires Agree(c, d, at, at + (if Folds(e) then NumLen(-e.arg.n) else Len(e.arg, ctx) + 1))
    ensures EmittedUnary(e, ctx, tg, d, at)
    decreases e, 0
  {
    hide Emitted, Len;
    if !Folds(e) {
      Stable(e.arg, ctx, tg, c, d, at);
    }
  }

  lemma StableBinary(e: Expr, ctx: Ctx, tg: Targets, c: CodeObj, d: CodeObj, at: nat)
    requires e.Binary? && |ctx| == |tg| && EmittedBinary(e, ctx, tg, c, at)
        && Agree(c, d, at, at + Len(e.left, ctx) + Len(e.right, ctx) + 1)
    ensures EmittedBinary(e, ctx, tg, d, at)
    decreases e, 0
  {
    hide Emitted, Len;
    Stable(e.left, ctx, tg, c, d, at);
    Stable(e.right, ctx, tg, c, d, at + Len(e.left, ctx));
  }

  lemma StableHashAppend(e: Expr, ctx: Ctx, tg: Targets, c: CodeObj, d: CodeObj, at: nat)
    requires e.HashAppend? && |ctx| == |tg| && EmittedHashAppend(e, ctx, tg, c, at)
        && Agree(c, d, at, at + Len(e.hash, ctx) + Len(e.key, ctx) + Len(e.val, ctx) + 1)
    ensures EmittedHashAppend(e, ctx, tg, d, at)
    decreases e, 0
  {
    hide Emitted, Len;
    Stable(e.hash, ctx, tg, c, d, at);
    Stable(e.key, ctx, tg, c, d, at + Len(e.hash, ctx));
    Stable(e.val, ctx, tg, c, d, at + Len(e.hash, ctx) + Len(e.key, ctx));
  }

  lemma StableMember(e: Expr, ctx: Ctx, tg: Targets, c: CodeObj, d: CodeObj, at: nat)
    requires e.Member? && |ctx| == |tg| && EmittedMember(e, ctx, tg, c, at) && Agree(c, d, at, at + Len(e.obj, ctx) + 2)
    ensures EmittedMember(e, ctx, tg, d, at)
    decreases e, 0
  {
    hide Emitted, Len;
    Stable(e.obj, ctx, tg, c, d, at);
  }

  lemma StableShort(e: Expr, ctx: Ctx, tg: Targets, c: CodeObj, d: CodeObj, at: nat)
    requires (e.And? || e.Or?) && |ctx| == |tg| && EmittedShort(e, ctx, tg, c, at)
        && Agree(c, d, at, at + Len(e.left, ctx) + 3 + Len(e.right, ctx))
    ensures EmittedShort(e, ctx, tg, d, at)
    decreases e, 0
  {
    hide Emitted, Len;
    Stable(e.left, ctx, tg, c, d, at);
    Stable(e.right, ctx, tg, c, d, at + Len(e.left, ctx) + 3);
  }

  lemma StableCond(e: Expr, ctx: Ctx, tg: Targets, c: CodeObj, d: CodeObj, at: nat)
    requires e.Cond? && |ctx| == |tg| && EmittedCond(e, ctx, tg, c, at)
        && Agree(c, d, at, at + Len(e.test, ctx) + Len(e.thn, ctx) + Len(e.els, ctx) + 4)
    ensures EmittedCond(e, ctx, tg, d, at)
    decreases e, 0
  {
    hide Emitted, Len;
    Stable(e.test, ctx, tg, c, d, at);
    Stable(e.thn, ctx, tg, c, d, at + Len(e.test, ctx) + 2);
    Stable(e.els, ctx, tg, c, d, at + Len(e.test, ctx) + Len(e.thn, ctx) + 4);
  }

  lemma StableSemi(e: Expr, ctx: Ctx, tg: Targets, c: CodeObj, d: CodeObj, at: nat)
    requires e.Semi? && |ctx| == |tg| && EmittedSemi(e, ctx, tg, c, at)
        && Agree(c, d, at, at + Len(e.first, ctx) + 1 + Len(e.rest, ctx))
    ensures EmittedSemi(e, ctx, tg, d, at)
    decreases e, 0
  {
    hide Emitted, Len;
    Stable(e.first, ctx, tg, c, d, at);
    Stable(e.rest, ctx, tg, c, d, at + Len(e.first, ctx) + 1);
  }

  lemma StableAssign(e: Expr, ctx: Ctx, tg: Targets, c: CodeObj, d: CodeObj, at: nat)
    requires e.Assign? && |ctx| == |tg| && EmittedAssign(e, ctx, tg, c, at)
        && Agree(c, d, at, at + Len(e.rhs, ctx) + LenTarget(e.lv, ctx) + 1)
    ensures EmittedAssign(e, ctx, tg, d, at)
    decreases e, 0
  {
    hide Emitted, Len;
    Stable(e.rhs, ctx, tg, c, d, at);
    StableStore(e.lv, ctx, tg, c, d, at + Len(e.rhs, ctx));
  }

  lemma StableOpAssign(e: Expr, ctx: Ctx, tg: Targets, c: CodeObj, d: CodeObj, at: nat)
    requires e.OpAssign? && |ctx| == |tg| && EmittedOpAssign(e, ctx, tg, c, at)
        && Agree(c, d, at, at + LenTarget(e.lv, ctx) + LoadLen(e.lv) + Len(e.rhs, ctx) + 3)
    ensures EmittedOpAssign(e, ctx, tg, d, at)
    decreases e, 0
  {
    hide Emitted, Len;
    StableTarget(e.lv, ctx, tg, c, d, at);
    Stable(e.rhs, ctx, tg, c, d, at + LenTarget(e.lv, ctx) + LoadLen(e.lv));
  }

  lemma StableMultiAssign(e: Expr, ctx: Ctx, tg: Targets, c: CodeObj, d: CodeObj, at: nat)
    requires e.MultiAssign? && |ctx| == |tg| && EmittedMultiAssign(e, ctx, tg, c, at)
        && Agree(c, d, at, at + LenList(e.rvs, ctx) + LenTargets(e.lvs, ctx))
    ensures EmittedMultiAssign(e, ctx, tg, d, at)
    decreases e, 0
  {
    hide Emitted, Len;
    StableReverse(e.rvs, ctx, tg, c, d, at);
    StableTargets(e.lvs, ctx, tg, c, d, at + LenList(e.rvs, ctx));
  }

  lemma StableUnpack(e: Expr, ctx: Ctx, tg: Targets, c: CodeObj, d: CodeObj, at: nat)
    requires e.Unpack? && |ctx| == |tg| && EmittedUnpack(e, ctx, tg, c, at)
        && Agree(c, d, at, at + Len(e.rhs, ctx) + 2 + LenTargets(e.lvs, ctx))
    ensures EmittedUnpack(e, ctx, tg, d, at)
    decreases e, 0
  {
    hide Emitted, Len;
    Stable(e.rhs, ctx, tg, c, d, at);
    StableTargets(e.lvs, ctx, tg, c, d, at + Len(e.rhs, ctx) + 2);
  }

  lemma StableWhile(e: Expr, ctx: Ctx, tg: Targets, c: CodeObj, d: CodeObj, at: nat)
    requires e.Loop? && |ctx| == |tg| && EmittedWhile(e, ctx, tg, c, at)
        && Agree(c, d, at, at + 1 + Len(e.test, Header(e, ctx)) + 2 + LoopLen(e, ctx))
    ensures EmittedWhile(e, ctx, tg, d, at)
    decreases e, 2
  {
    hide Emitted, Len;
    var j := at + 1 + Len(e.test, Header(e, ctx));
    Stable(e.test, Header(e, ctx), tg + [PENDING], c, d, at + 1);
    StableLoop(e, OP_JIFNOTPOP, ctx, tg, c, d, at + 1, j, j + 2);
  }

  lemma StableForEach(e: Expr, ctx: Ctx, tg: Targets, c: CodeObj, d: CodeObj, at: nat)
    requires e.ForEach? && |ctx| == |tg| && EmittedForEach(e, ctx, tg, c, at)
        && Agree(c, d, at, at + Len(e.vec, ctx) + 5 + LenTarget(e.lv, Header(e, ctx)) + 2 + LoopLen(e, ctx) + 2)
    ensures EmittedForEach(e, ctx, tg, d, at)
    decreases e, 2
  {
    hide Emitted, Len, EmittedEachHeader, EmittedLoop;
    var top := at + Len(e.vec, ctx) + 2;
    StableEachHeader(e, ctx, tg, c, d, at, top);
    StableLoop(e, OP_JIFEND, ctx, tg, c, d, top, top + 1, top + 5 + LenTarget(e.lv, Header(e, ctx)));
  }

  lemma StableLoop(e: Expr, exit: nat, ctx: Ctx, tg: Targets, c: CodeObj, d: CodeObj, top: nat, j: nat, b0: nat)
    requires IsLoop(e) && |ctx| == |tg| && EmittedLoop(e, exit, ctx, tg, c, top, j, b0)
    requires Agree(c, d, j, j + 2) && Agree(c, d, b0, b0 + LoopLen(e, ctx))
    ensures EmittedLoop(e, exit, ctx, tg, d, top, j, b0)
    decreases e, 1
  {
    hide Emitted, Len;
    var inner := tg + [Target(j, b0 + 2)];
    StableBody(e, Inside(e, ctx), inner, c, d, b0);
    StableUpdate(e, Inside(e, ctx), inner, c, d, b0 + 5 + Len(e.body, Inside(e, ctx)));
  }

  lemma StableBody(e: Expr, inside: Ctx, inner: Targets, c: CodeObj, d: CodeObj, b0: nat)
    requires IsLoop(e) && |inside| == |inner| && EmittedBody(e, inside, inner, c, b0)
    requires Agree(c, d, b0, b0 + 5 + Len(e.body, inside))
    ensures EmittedBody(e, inside, inner, d, b0)
    decreases e, 0
  {
    hide Emitted, Len;
    Stable(e.body, inside, inner, c, d, b0 + 4);
  }

  lemma StableUpdate(e: Expr, inside: Ctx, inner: Targets, c: CodeObj, d: CodeObj, at: nat)
    requires IsLoop(e) && |inside| == |inner| && EmittedUpdate(e, inside, inner, c, at)
    requires e.Loop? && e.update.Some? ==> Agree(c, d, at, at + Len(e.update.value, inside) + 1)
    ensures EmittedUpdate(e, inside, inner, d, at)
    decreases e, 0
  {
    hide Emitted, Len;
    if e.Loop? && e.update.Some? {
      Stable(e.update.value, inside, inner, c, d, at);
    }
  }

  lemma StableEachHeader(e: Expr, ctx: Ctx, tg: Targets, c: CodeObj, d: CodeObj, at: nat, top: nat)
    requires e.ForEach? && |ctx| == |tg| && EmittedEachHeader(e, ctx, tg, c, at, top)
    requires Agree(c, d, at, top + 1) && Agree(c, d, top + 3, top + 5 + LenTarget(e.lv, Header(e, ctx)))
    ensures EmittedEachHeader(e, ctx, tg, d, at, top)
    decreases e, 0
  {
    hide Emitted, Len;
    Stable(e.vec, ctx, tg, c, d, at);
    StableStore(e.lv, Header(e, ctx), tg + [PENDING], c, d, top + 3);
  }

  lemma StableReturn(e: Expr, ctx: Ctx, tg: Targets, c: CodeObj, d: CodeObj, at: nat)
    requires e.Return? && |ctx| == |tg| && EmittedReturn(e, ctx, tg, c, at)
        && Agree(c, d, at, at + Len(e.arg, ctx) + |ctx| + 1)
    ensures EmittedReturn(e, ctx, tg, d, at)
    decreases e, 0
  {
    hide Emitted, Len;
    Stable(e.arg, ctx, tg, c, d, at);
  }

  lemma StableCall(e: Expr, ctx: Ctx, tg: Targets, c: CodeObj, d: CodeObj, at: nat)
    requires e.Call? && |ctx| == |tg| && EmittedCall(e, ctx, tg, c, at)
        && Agree(c, d, at, at + Len(e.f, ctx) + LenList(e.args, ctx) + 2)
    ensures EmittedCall(e, ctx, tg, d, at)
    decreases e, 0
  {
    hide Emitted, Len;
    Stable(e.f, ctx, tg, c, d, at);
    StableList(e.args, ctx, tg, c, d, at + Len(e.f, ctx));
  }

  lemma StableMethod(o: Expr, field: string, ctx: Ctx, tg: Targets, c: CodeObj, d: CodeObj, at: nat)
    requires |ctx| == |tg| && EmittedMethod(o, field, ctx, tg, c, at) && Agree(c, d, at, at + Len(o, ctx) + 3)
    ensures EmittedMethod(o, field, ctx, tg, d, at)
    decreases o, 5
  {
    hide Emitted, Len;
    Stable(o, ctx, tg, c, d, at);
  }

  lemma StableMethodCall(e: Expr, ctx: Ctx, tg: Targets, c: CodeObj, d: CodeObj, at: nat)
    requires e.MethodCall? && |ctx| == |tg| && EmittedMethodCall(e, ctx, tg, c, at)
        && Agree(c, d, at, at + Len(e.obj, ctx) + 3 + LenList(e.args, ctx) + 2)
    ensures EmittedMethodCall(e, ctx, tg, d, at)
    decreases e, 0
  {
    hide Emitted, Len;
    StableMethod(e.obj, e.field, ctx, tg, c, d, at);
    StableList(e.args, ctx, tg, c, d, at + Len(e.obj, ctx) + 3);
  }

  lemma StableNamedCall(e: Expr, ctx: Ctx, tg: Targets, c: CodeObj, d: CodeObj, at: nat)
    requires e.NamedCall? && |ctx| == |tg| && EmittedNamedCall(e, ctx, tg, c, at)
        && Agree(c, d, at, at + Len(e.f, ctx) + Len(e.named, ctx) + 1)
    ensures EmittedNamedCall(e, ctx, tg, d, at)
    decreases e, 0
  {
    hide Emitted, Len;
    Stable(e.f, ctx, tg, c, d, at);
    Stable(e.named, ctx, tg, c, d, at + Len(e.f, ctx));
  }

  lemma StableNamedMethodCall(e: Expr, ctx: Ctx, tg: Targets, c: CodeObj, d: CodeObj, at: nat)
    requires e.NamedMethodCall? && |ctx| == |tg| && EmittedNamedMethodCall(e, ctx, tg, c, at)
        && Agree(c, d, at, at + Len(e.obj, ctx) + 3 + Len(e.named, ctx) + 1)
    ensures EmittedNamedMethodCall(e, ctx, tg, d, at)
    decreases e, 0
  {
    hide Emitted, Len;
    StableMethod(e.obj, e.field, ctx, tg, c, d, at);
    Stable(e.named, ctx, tg, c, d, at + Len(e.obj, ctx) + 3);
  }

  lemma StableList(x: Exprs, ctx: Ctx, tg: Targets, c: CodeObj, d: CodeObj, at: nat)
    requires |ctx| == |tg| && EmittedList(x, ctx, tg, c, at) && Agree(c, d, at, at + LenList(x, ctx))
    ensures EmittedList(x, ctx, tg, d, at)
    decreases x, 0
  {
    hide Emitted, Len;
    if x.More? {
      Stable(x.head, ctx, tg, c, d, at);
      StableList(x.tail, ctx, tg, c, d, at + Len(x.head, ctx));
    }
  }

  lemma StableReverse(x: Exprs, ctx: Ctx, tg: Targets, c: CodeObj, d: CodeObj, at: nat)
    requires |ctx| == |tg| && EmittedReverse(x, ctx, tg, c, at) && Agree(c, d, at, at + LenList(x, ctx))
    ensures EmittedReverse(x, ctx, tg, d, at)
    decreases x, 0
  {
    hide Emitted, Len;
    if x.More? {
      StableReverse(x.tail, ctx, tg, c, d, at);
      Stable(x.head, ctx, tg, c, d, at + LenList(x.tail, ctx));
    }
  }

  lemma StableTarget(x: LValue, ctx: Ctx, tg: Targets, c: CodeObj, d: CodeObj, at: nat)
    requires |ctx| == |tg| && EmittedTarget(x, ctx, tg, c, at) && Agree(c, d, at, at + LenTarget(x, ctx))
    ensures EmittedTarget(x, ctx, tg, d, at)
    decreases x, 0
  {
    hide Emitted, Len;
    match x
    case LMember(o, _) => Stable(o, ctx, tg, c, d, at);
    case LIndex(b, k) =>
      Stable(b, ctx, tg, c, d, at);
      Stable(k, ctx, tg, c, d, at + Len(b, ctx));
    case _ =>
  }

  lemma StableStore(x: LValue, ctx: Ctx, tg: Targets, c: CodeObj, d: CodeObj, at: nat)
    requires |ctx| == |tg| && EmittedStore(x, ctx, tg, c, at) && Agree(c, d, at, at + LenTarget(x, ctx) + 1)
    ensures EmittedStore(x, ctx, tg, d, at)
    decreases x, 1
  {
    hide Emitted, Len;
    StableTarget(x, ctx, tg, c, d, at);
  }

  lemma StableTargets(x: LValues, ctx: Ctx, tg: Targets, c: CodeObj, d: CodeObj, at: nat)
    requires |ctx| == |tg| && EmittedTargets(x, ctx, tg, c, at) && Agree(c, d, at, at + LenTargets(x, ctx))
    ensures EmittedTargets(x, ctx, tg, d, at)
    decreases x, 0
  {
    hide Emitted, Len;
    StableStore(x.lv, ctx, tg, c, d, at);
    if x.MoreLV? {
      StableTargets(x.rest, ctx, tg, c, d, at + LenTarget(x.lv, ctx) + 2);
    }
  }

  lemma StableOperator(e: Expr, ctx: Ctx, tg: Targets, c: CodeObj, d: CodeObj, at: nat)
    requires |ctx| == |tg| && Emitted(e, ctx, tg, c, at) && Agree(c, d, at, at + Len(e, ctx))
    requires e.Unary? || e.Binary? || e.HashAppend? || e.Member?
    ensures Emitted(e, ctx, tg, d, at)
    decreases e, 3
  {
    hide EmittedBinary, EmittedHashAppend, EmittedMember, EmittedUnary, Agree;
    match e
    case Unary(_, _) => StableUnary(e, ctx, tg, c, d, at);
    case Binary(_, _, _) => StableBinary(e, ctx, tg, c, d, at);
    case HashAppend(_, _, _) => StableHashAppend(e, ctx, tg, c, d, at);
    case Member(_, _) => StableMember(e, ctx, tg, c, d, at);
  }

  lemma StableBranch(e: Expr, ctx: Ctx, tg: Targets, c: CodeObj, d: CodeObj, at: nat)
    requires |ctx| == |tg| && Emitted(e, ctx, tg, c, at) && Agree(c, d, at, at + Len(e, ctx))
    requires e.And? || e.Or? || e.Cond? || e.Semi?
    ensures Emitted(e, ctx, tg, d, at)
    decreases e, 3
  {
    hide EmittedCond, EmittedSemi, EmittedShort, Agree;
    match e
    case And(_, _) => StableShort(e, ctx, tg, c, d, at);
    case Or(_, _) => StableShort(e, ctx, tg, c, d, at);
    case Cond(_, _, _) => StableCond(e, ctx, tg, c, d, at);
    case Semi(_, _) => StableSemi(e, ctx, tg, c, d, at);
  }

  lemma StableAssignment(e: Expr, ctx: Ctx, tg: Targets, c: CodeObj, d: CodeObj, at: nat)
    requires |ctx| == |tg| && Emitted(e, ctx, tg, c, at) && Agree(c, d, at, at + Len(e, ctx))
    requires e.Assign? || e.OpAssign? || e.MultiAssign? || e.Unpack?
    ensures Emitted(e, ctx, tg, d, at)
    decreases e, 3
  {
    hide EmittedAssign, EmittedMultiAssign, EmittedOpAssign, EmittedUnpack, Agree;
    match e
    case Assign(_, _) => StableAssign(e, ctx, tg, c, d, at);
    case OpAssign(_, _, _) => StableOpAssign(e, ctx, tg, c, d, at);
    case MultiAssign(_, _) => StableMultiAssign(e, ctx, tg, c, d, at);
    case Unpack(_, _) => StableUnpack(e, ctx, tg, c, d, at);
  }

  lemma StableJump(e: Expr, ctx: Ctx, tg: Targets, c: CodeObj, d: CodeObj, at: nat)
    requires |ctx| == |tg| && Emitted(e, ctx, tg, c, at) && Agree(c, d, at, at + Len(e, ctx))
    requires e.Loop? || e.ForEach? || e.Return?
    ensures Emitted(e, ctx, tg, d, at)
    decreases e, 3
  {
    hide EmittedForEach, EmittedReturn, EmittedWhile, Agree;
    match e
    case Loop(_, _, _, _) => StableWhile(e, ctx, tg, c, d, at);
    case ForEach(_, _, _, _, _) => StableForEach(e, ctx, tg, c, d, at);
    case Return(_) => StableReturn(e, ctx, tg, c, d, at);
  }

  lemma StableCalling(e: Expr, ctx: Ctx, tg: Targets, c: CodeObj, d: CodeObj, at: nat)
    requires |ctx| == |tg| && Emitted(e, ctx, tg, c, at) && Agree(c, d, at, at + Len(e, ctx))
    requires e.Call? || e.MethodCall?
    ensures Emitted(e, ctx, tg, d, at)
    decreases e, 3
  {
    hide EmittedCall, EmittedMethodCall, Agree;
    match e
    case Call(_, _) => StableCall(e, ctx, tg, c, d, at);
    case MethodCall(_, _, _) => StableMethodCall(e, ctx, tg, c, d, at);
  }

  lemma StableNaming(e: Expr, ctx: Ctx, tg: Targets, c: CodeObj, d: CodeObj, at: nat)
    requires |ctx| == |tg| && Emitted(e, ctx, tg, c, at) && Agree(c, d, at, at + Len(e, ctx))
    requires e.NamedCall? || e.NamedMethodCall?
    ensures Emitted(e, ctx, tg, d, at)
    decreases e, 3
  {
    hide EmittedNamedCall, EmittedNamedMethodCall, Agree;
    match e
    case NamedCall(_, _) => StableNamedCall(e, ctx, tg, c, d, at);
    case NamedMethodCall(_, _, _) => StableNamedMethodCall(e, ctx, tg, c, d, at);
  }

  lemma StableLeafOrJump(e: Expr, ctx: Ctx, tg: Targets, c: CodeObj, d: CodeObj, at: nat)
    requires |ctx| == |tg| && Emitted(e, ctx, tg, c, at) && Agree(c, d, at, at + Len(e, ctx))
    requires IsLeaf(e) || e.Break? || e.Continue?
    ensures Emitted(e, ctx, tg, d, at)
  {
  }

  lemma Stable(e: Expr, ctx: Ctx, tg: Targets, c: CodeObj, d: CodeObj, at: nat)
    requires |ctx| == |tg| && Emitted(e, ctx, tg, c, at) && Agree(c, d, at, at + Len(e, ctx))
    ensures Emitted(e, ctx, tg, d, at)
    decreases e, 4
  {
    hide Emitted, Len, Agree;
    if e.And? || e.Or? || e.Cond? || e.Semi? {
      StableBranch(e, ctx, tg, c, d, at);
    } else if e.Assign? || e.OpAssign? || e.MultiAssign? || e.Unpack? {
      StableAssignment(e, ctx, tg, c, d, at);
    } else if e.Loop? || e.ForEach? || e.Return? {
      StableJump(e, ctx, tg, c, d, at);
    } else if e.Call? || e.MethodCall? {
      StableCalling(e, ctx, tg, c, d, at);
    } else if e.NamedCall? || e.NamedMethodCall? {
      StableNaming(e, ctx, tg, c, d, at);
    } else if e.Unary? || e.Binary? || e.HashAppend? || e.Member? {
      StableOperator(e, ctx, tg, c, d, at);
    } else {
      StableLeafOrJump(e, ctx, tg, c, d, at);
    }
  }
}
