/** Emitted code passes the check of its static heights: one lemma a construct, by
    induction over syntax. */
module Typing {
  import opened Basics
  import opened Values
  import opened Syntax
  import opened Machine
  import opened Layout
  import opened Heights

  /** Marks are in order and no mark is above the operands. */
  ghost predicate Sound(st: Stack) {
    && (forall a :: 0 <= a < |st.marks| ==> st.marks[a] <= st.ops)
    && (forall a, b :: 0 <= a <= b < |st.marks| ==> st.marks[a] <= st.marks[b])
  }

  /** The jump targets of the open loops have the heights that break and continue
      leave. */
  ghost predicate Lands(H: Map, ctx: Ctx, tg: Targets, st: Stack)
    requires |ctx| == |tg| == |st.marks|
  {
    forall j :: 0 <= j < |ctx| && ctx[j].open ==> LandsAt(H, tg[j], Landing(st, j))
  }

  ghost predicate LandsAt(H: Map, target: Target, st: Stack) {
    H(target.contIP) == Some(st) && H(target.breakIP) == Some(Up(st, 1))
  }

  ghost predicate Here(H: Map, ctx: Ctx, tg: Targets, st: Stack) {
    |ctx| == |tg| == |st.marks| && Sound(st) && Lands(H, ctx, tg, st)
  }

  lemma HereUp(H: Map, ctx: Ctx, tg: Targets, st: Stack, n: nat)
    requires Here(H, ctx, tg, st)
    ensures Here(H, ctx, tg, Up(st, n))
  {
    forall j | 0 <= j < |ctx| && ctx[j].open
      ensures LandsAt(H, tg[j], Landing(Up(st, n), j))
    {
      assert Landing(Up(st, n), j) == Landing(st, j);
    }
  }

  lemma HereInside(H: Map, ctx: Ctx, tg: Targets, st: Stack, sc: Scope, target: Target)
    requires Here(H, ctx, tg, st) && (sc.open ==> LandsAt(H, target, Marked(st)))
    ensures Here(H, ctx + [sc], tg + [target], Marked(st))
  {
    var ctx1, tg1, st1 := ctx + [sc], tg + [target], Marked(st);
    forall j | 0 <= j < |ctx1| && ctx1[j].open
      ensures LandsAt(H, tg1[j], Landing(st1, j))
    {
      if j < |ctx| {
        assert st1.marks[..j + 1] == st.marks[..j + 1];
      } else {
        assert st1.marks[..j + 1] == st1.marks;
      }
    }
  }

  // ----- one instruction -----

  lemma Plain(c: CodeObj, H: Map, i: nat, op: nat, st: Stack)
    requires Op(c, i, op) && !HasArg(op) && !Branches(op) && !Loops(op) && op != OP_RETURN
    requires H(i) == Some(st) && Needs(op, 0) <= st.ops && Is(H(i + 1), st.ops + Net(op, 0), st.marks)
    ensures CheckedAt(c, H, i)
  {
  }

  lemma AtPop(c: CodeObj, H: Map, i: nat, st: Stack)
    requires Op(c, i, OP_POP) && H(i) == Some(Up(st, 1)) && H(i + 1) == Some(st)
    ensures CheckedAt(c, H, i)
  {
    Plain(c, H, i, OP_POP, Up(st, 1));
  }

  lemma AtPush(c: CodeObj, H: Map, i: nat, op: nat, st: Stack)
    requires op in {OP_PUSHZERO, OP_PUSHNIL, OP_PUSHEND} || (op in {OP_EACH, OP_INDEX} && st.ops >= 2)
    requires Op(c, i, op) && H(i) == Some(st) && H(i + 1) == Some(Up(st, 1))
    ensures CheckedAt(c, H, i)
  {
    Plain(c, H, i, op, st);
  }

  lemma AtJump(c: CodeObj, H: Map, i: nat, op: nat, target: nat, st: Stack)
    requires OpArg(c, i, op, target) && (op == OP_JMP || op == OP_JMPLOOP)
    requires H(i) == Some(st) && H(i + 1) == None && H(target) == Some(st)
    ensures CheckedAt(c, H, i) && CheckedAt(c, H, i + 1)
  {
    Branch(c, H, i, op, target, st);
  }

  /** The test that leaves a loop. */
  lemma AtExit(c: CodeObj, H: Map, i: nat, op: nat, target: nat, st: Stack)
    requires OpArg(c, i, op, target) && (op == OP_JIFNOTPOP || op == OP_JIFEND)
    requires H(i) == Some(Up(st, 1)) && H(i + 1) == None && H(target) == Some(st)
    requires H(i + 2) == if op == OP_JIFEND then Some(Up(st, 1)) else Some(st)
    ensures CheckedAt(c, H, i) && CheckedAt(c, H, i + 1)
  {
    Branch(c, H, i, op, target, Up(st, 1));
  }

  lemma AtUnmark(c: CodeObj, H: Map, i: nat, st: Stack)
    requires Op(c, i, OP_UNMARK) && H(i) == Some(Marked(st)) && H(i + 1) == Some(st)
    ensures CheckedAt(c, H, i)
  {
    assert Marked(st).marks[..|st.marks|] == st.marks;
    AtMark(c, H, i, OP_UNMARK, Marked(st));
  }

  lemma WithArg(c: CodeObj, H: Map, i: nat, op: nat, arg: nat, st: Stack)
    requires OpArg(c, i, op, arg) && HasArg(op) && !Branches(op)
    requires H(i) == Some(st) && H(i + 1) == None && Needs(op, arg) <= st.ops
    requires Is(H(i + 2), st.ops + Net(op, arg), st.marks)
    ensures CheckedAt(c, H, i) && CheckedAt(c, H, i + 1)
  {
  }

  lemma WithConst(c: CodeObj, H: Map, i: nat, op: nat, v: Value, st: Stack)
    requires OpConst(c, i, op, v) && (op == OP_PUSHCONST || op == OP_LOCAL || op == OP_MEMBER)
    requires H(i) == Some(st) && H(i + 1) == None && (op == OP_MEMBER ==> st.ops > 0)
    requires Is(H(i + 2), st.ops + (if op == OP_MEMBER then 0 else 1), st.marks)
    ensures CheckedAt(c, H, i) && CheckedAt(c, H, i + 1)
  {
    WithArg(c, H, i, op, c.words[i + 1], st);
  }

  lemma Branch(c: CodeObj, H: Map, i: nat, op: nat, target: nat, st: Stack)
    requires OpArg(c, i, op, target) && Branches(op)
    requires H(i) == Some(st) && H(i + 1) == None && (op == OP_JMP || op == OP_JMPLOOP || st.ops > 0)
    requires FollowsBranch(H, op, target, i + 2, st)
    ensures CheckedAt(c, H, i) && CheckedAt(c, H, i + 1)
  {
  }

  lemma AtMark(c: CodeObj, H: Map, i: nat, op: nat, st: Stack)
    requires Op(c, i, op) && Loops(op) && H(i) == Some(st) && FollowsMark(H, op, i + 1, st)
    ensures CheckedAt(c, H, i)
  {
  }

  lemma AtReturn(c: CodeObj, H: Map, i: nat, st: Stack)
    requires Op(c, i, OP_RETURN) && H(i) == Some(st) && st.ops > 0 && st.marks == []
    ensures CheckedAt(c, H, i)
  {
  }

  lemma AtNumber(c: CodeObj, H: Map, i: nat, n: real, st: Stack)
    requires NumAt(c, i, n) && H(i) == Some(st) && (NumLen(n) == 2 ==> H(i + 1) == None)
    requires H(i + NumLen(n)) == Some(Up(st, 1))
    ensures Checked(c, H, i, i + NumLen(n))
  {
    if n == 1.0 {
      Plain(c, H, i, OP_PUSHONE, st);
    } else if n == 0.0 {
      Plain(c, H, i, OP_PUSHZERO, st);
    } else {
      WithConst(c, H, i, OP_PUSHCONST, Num(n), st);
    }
  }

  // ----- entries -----

  /** Code is entered at its first word. */
  lemma {:induction false} StartsAt(e: Expr, ctx: Ctx, st: Stack, at: nat)
    requires |st.marks| == |ctx| && WellFormed(e, ctx)
    ensures HeightAt(e, ctx, st, at, at) == Some(st)
    decreases e, 2
  {
    if e.Call? || e.MethodCall? || e.NamedCall? || e.NamedMethodCall? {
      CallStartsAt(e, ctx, st, at);
      return;
    }
    match e
    case Unary(_, a) => if !Folds(e) { SomeCode(a, ctx); StartsAt(a, ctx, st, at); }
    case Binary(_, l, _) => SomeCode(l, ctx); StartsAt(l, ctx, st, at);
    case HashAppend(h, _, _) => SomeCode(h, ctx); StartsAt(h, ctx, st, at);
    case Member(o, _) => SomeCode(o, ctx); StartsAt(o, ctx, st, at);
    case And(l, _) => SomeCode(l, ctx); StartsAt(l, ctx, st, at);
    case Or(l, _) => SomeCode(l, ctx); StartsAt(l, ctx, st, at);
    case Cond(t, _, _) => SomeCode(t, ctx); StartsAt(t, ctx, st, at);
    case Semi(a, _) => SomeCode(a, ctx); StartsAt(a, ctx, st, at);
    case Assign(_, r) => SomeCode(r, ctx); StartsAt(r, ctx, st, at);
    case OpAssign(_, lv, _) => EntryTarget(lv, ctx, st, at);
    case MultiAssign(_, rvs) => EntryReverse(rvs, ctx, st, at);
    case Unpack(_, r) => SomeCode(r, ctx); StartsAt(r, ctx, st, at);
    case ForEach(_, _, _, v, _) =>
      SomeCode(v, ctx);
      StartsAt(v, ctx, st, at);
      assert HeightEachHeader(e, ctx, st, at, at + Len(v, ctx) + 2, at) == Some(st);
    case Return(a) => SomeCode(a, ctx); StartsAt(a, ctx, st, at);
    case _ =>
  }

  lemma CallStartsAt(e: Expr, ctx: Ctx, st: Stack, at: nat)
    requires |st.marks| == |ctx| && WellFormed(e, ctx)
    requires e.Call? || e.MethodCall? || e.NamedCall? || e.NamedMethodCall?
    ensures HeightAt(e, ctx, st, at, at) == Some(st)
    decreases e, 1
  {
    match e
    case Call(f, _) => SomeCode(f, ctx); StartsAt(f, ctx, st, at);
    case MethodCall(o, _, _) =>
      SomeCode(o, ctx);
      StartsAt(o, ctx, st, at);
      assert HeightMethod(o, ctx, st, at, at) == Some(st);
    case NamedCall(f, _) => SomeCode(f, ctx); StartsAt(f, ctx, st, at);
    case NamedMethodCall(o, _, _) =>
      SomeCode(o, ctx);
      StartsAt(o, ctx, st, at);
      assert HeightMethod(o, ctx, st, at, at) == Some(st);
  }

  lemma {:induction false} EntryTarget(lv: LValue, ctx: Ctx, st: Stack, at: nat)
    requires |st.marks| == |ctx| && WellFormedLV(lv, ctx)
    ensures LenTarget(lv, ctx) > 0 && HeightTarget(lv, ctx, st, at, at) == Some(st)
    decreases lv, 0
  {
    match lv
    case LMember(o, _) => SomeCode(o, ctx); StartsAt(o, ctx, st, at);
    case LIndex(b, k) => SomeCode(b, ctx); StartsAt(b, ctx, st, at);
    case _ =>
  }

  lemma {:induction false} EntryReverse(es: Exprs, ctx: Ctx, st: Stack, at: nat)
    requires |st.marks| == |ctx| && WellFormedList(es, ctx) && es.More?
    ensures LenList(es, ctx) > 0 && HeightReverse(es, ctx, st, at, at) == Some(st)
    decreases es, 0
  {
    SomeCode(es.head, ctx);
    if es.tail.More? {
      EntryReverse(es.tail, ctx, st, at);
    } else {
      StartsAt(es.head, ctx, st, at);
    }
  }

  lemma EntryList(es: Exprs, ctx: Ctx, st: Stack, at: nat)
    requires |st.marks| == |ctx| && WellFormedList(es, ctx) && es.More?
    ensures LenList(es, ctx) > 0 && HeightList(es, ctx, st, at, at) == Some(st)
  {
    SomeCode(es.head, ctx);
    StartsAt(es.head, ctx, st, at);
  }

  lemma EntryStore(lv: LValue, ctx: Ctx, st: Stack, at: nat)
    requires |st.marks| == |ctx| && WellFormedLV(lv, ctx)
    ensures LenTarget(lv, ctx) > 0 && HeightStore(lv, ctx, st, at, at) == Some(st)
  {
    hide HeightTarget, LenTarget;
    EntryTarget(lv, ctx, st, at);
  }

  lemma EntryTargets(lvs: LValues, ctx: Ctx, st: Stack, at: nat)
    requires |st.marks| == |ctx| && WellFormedLVs(lvs, ctx)
    ensures LenTargets(lvs, ctx) > 0 && HeightTargets(lvs, ctx, st, at, at) == Some(Up(st, CountLV(lvs)))
  {
    EntryTarget(lvs.lv, ctx, Up(st, CountLV(lvs)), at);
  }

  // ----- constructs -----

  ghost predicate Agrees(H: Map, e: Expr, ctx: Ctx, st: Stack, at: nat)
    requires |st.marks| == |ctx|
  {
    forall i :: at <= i < at + Len(e, ctx) ==> H(i) == HeightAt(e, ctx, st, at, i)
  }

  lemma TypeUnary(e: Expr, ctx: Ctx, tg: Targets, c: CodeObj, H: Map, st: Stack, at: nat, end: nat)
    requires e.Unary? && Here(H, ctx, tg, st) && EmittedUnary(e, ctx, tg, c, at)
    requires WellFormed(e.arg, ctx)
    requires end == at + (if Folds(e) then NumLen(-e.arg.n) else Len(e.arg, ctx) + 1)
    requires H(end) == Some(Up(st, 1))
    requires forall i :: at <= i < end ==> H(i) == HeightUnary(e, ctx, st, at, i)
    ensures Checked(c, H, at, end)
    decreases e, 0, 0
  {
    hide Emitted, Len, WellFormed, HeightAt, Follows, CheckedAt, Lands;
    if Folds(e) {
      AtNumber(c, H, at, -e.arg.n, st);
    } else {
      TypeExpr(e.arg, ctx, tg, c, H, st, at);
      Plain(c, H, end - 1, UnaryCode(e.uop), Up(st, 1));
    }
  }

  lemma TypeBinary(e: Expr, ctx: Ctx, tg: Targets, c: CodeObj, H: Map, st: Stack, at: nat, end: nat)
    requires e.Binary? && Here(H, ctx, tg, st) && EmittedBinary(e, ctx, tg, c, at)
    requires WellFormed(e.left, ctx) && WellFormed(e.right, ctx)
    requires end == at + Len(e.left, ctx) + Len(e.right, ctx) + 1
    requires H(end) == Some(Up(st, 1))
    requires forall i :: at <= i < end ==> H(i) == HeightBinary(e, ctx, st, at, i)
    ensures Checked(c, H, at, end)
    decreases e, 0, 0
  {
    hide Emitted, Len, WellFormed, HeightAt, Follows, CheckedAt, Lands;
    var r0 := at + Len(e.left, ctx);
    HereUp(H, ctx, tg, st, 1);
    SomeCode(e.right, ctx);
    StartsAt(e.right, ctx, Up(st, 1), r0);
    TypeExpr(e.left, ctx, tg, c, H, st, at);
    TypeExpr(e.right, ctx, tg, c, H, Up(st, 1), r0);
    BinaryCodes(e.op);
    Plain(c, H, end - 1, BinaryCode(e.op), Up(st, 2));
  }

  lemma TypeHashAppend(e: Expr, ctx: Ctx, tg: Targets, c: CodeObj, H: Map, st: Stack, at: nat, end: nat)
    requires e.HashAppend? && Here(H, ctx, tg, st) && EmittedHashAppend(e, ctx, tg, c, at)
    requires WellFormed(e.hash, ctx) && WellFormed(e.key, ctx) && WellFormed(e.val, ctx)
    requires end == at + Len(e.hash, ctx) + Len(e.key, ctx) + Len(e.val, ctx) + 1
    requires H(end) == Some(Up(st, 1))
    requires forall i :: at <= i < end ==> H(i) == HeightHashAppend(e, ctx, st, at, i)
    ensures Checked(c, H, at, end)
    decreases e, 0, 0
  {
    hide Emitted, Len, WellFormed, HeightAt, Follows, CheckedAt, Lands;
    var k0 := at + Len(e.hash, ctx);
    var v0 := k0 + Len(e.key, ctx);
    HereUp(H, ctx, tg, st, 1);
    HereUp(H, ctx, tg, st, 2);
    SomeCode(e.key, ctx);
    SomeCode(e.val, ctx);
    StartsAt(e.key, ctx, Up(st, 1), k0);
    StartsAt(e.val, ctx, Up(st, 2), v0);
    TypeExpr(e.hash, ctx, tg, c, H, st, at);
    TypeExpr(e.key, ctx, tg, c, H, Up(st, 1), k0);
    TypeExpr(e.val, ctx, tg, c, H, Up(st, 2), v0);
    Plain(c, H, end - 1, OP_HAPPEND, Up(st, 3));
  }

  lemma TypeMember(e: Expr, ctx: Ctx, tg: Targets, c: CodeObj, H: Map, st: Stack, at: nat, end: nat)
    requires e.Member? && Here(H, ctx, tg, st) && EmittedMember(e, ctx, tg, c, at)
    requires WellFormed(e.obj, ctx)
    requires end == at + Len(e.obj, ctx) + 2
    requires H(end) == Some(Up(st, 1))
    requires forall i :: at <= i < end ==> H(i) == HeightMember(e, ctx, st, at, i)
    ensures Checked(c, H, at, end)
    decreases e, 0, 0
  {
    hide Emitted, Len, WellFormed, HeightAt, Follows, CheckedAt, Lands;
    TypeExpr(e.obj, ctx, tg, c, H, st, at);
    WithConst(c, H, end - 2, OP_MEMBER, Text(e.field), Up(st, 1));
  }

  lemma TypeShort(e: Expr, ctx: Ctx, tg: Targets, c: CodeObj, H: Map, st: Stack, at: nat, end: nat)
    requires (e.And? || e.Or?) && Here(H, ctx, tg, st) && EmittedShort(e, ctx, tg, c, at)
    requires WellFormed(e.left, ctx) && WellFormed(e.right, ctx)
    requires end == at + Len(e.left, ctx) + 3 + Len(e.right, ctx)
    requires H(end) == Some(Up(st, 1))
    requires forall i :: at <= i < end ==> H(i) == HeightShort(e, ctx, st, at, i)
    ensures Checked(c, H, at, end)
    decreases e, 0, 0
  {
    hide Emitted, Len, WellFormed, HeightAt, Follows, CheckedAt, Lands;
    var r0 := at + Len(e.left, ctx) + 3;
    SomeCode(e.right, ctx);
    StartsAt(e.right, ctx, st, r0);
    TypeExpr(e.left, ctx, tg, c, H, st, at);
    Branch(c, H, r0 - 3, if e.And? then OP_JIFNOT else OP_JIFTRUE, end, Up(st, 1));
    AtPop(c, H, r0 - 1, st);
    TypeExpr(e.right, ctx, tg, c, H, st, r0);
  }

  lemma TypeCond(e: Expr, ctx: Ctx, tg: Targets, c: CodeObj, H: Map, st: Stack, at: nat, end: nat)
    requires e.Cond? && Here(H, ctx, tg, st) && EmittedCond(e, ctx, tg, c, at)
    requires WellFormed(e.test, ctx) && WellFormed(e.thn, ctx) && WellFormed(e.els, ctx)
    requires end == at + Len(e.test, ctx) + Len(e.thn, ctx) + Len(e.els, ctx) + 4
    requires H(end) == Some(Up(st, 1))
    requires forall i :: at <= i < end ==> H(i) == HeightCond(e, ctx, st, at, i)
    ensures Checked(c, H, at, end)
    decreases e, 0, 0
  {
    hide Emitted, Len, WellFormed, HeightAt, Follows, CheckedAt, Lands;
    var a0 := at + Len(e.test, ctx) + 2;
    var b0 := a0 + Len(e.thn, ctx) + 2;
    SomeCode(e.thn, ctx);
    SomeCode(e.els, ctx);
    StartsAt(e.thn, ctx, st, a0);
    StartsAt(e.els, ctx, st, b0);
    TypeExpr(e.test, ctx, tg, c, H, st, at);
    Branch(c, H, a0 - 2, OP_JIFNOTPOP, b0, Up(st, 1));
    TypeExpr(e.thn, ctx, tg, c, H, st, a0);
    AtJump(c, H, b0 - 2, OP_JMP, end, Up(st, 1));
    TypeExpr(e.els, ctx, tg, c, H, st, b0);
  }

  lemma TypeSemi(e: Expr, ctx: Ctx, tg: Targets, c: CodeObj, H: Map, st: Stack, at: nat, end: nat)
    requires e.Semi? && Here(H, ctx, tg, st) && EmittedSemi(e, ctx, tg, c, at)
    requires WellFormed(e.first, ctx) && WellFormed(e.rest, ctx)
    requires end == at + Len(e.first, ctx) + 1 + Len(e.rest, ctx)
    requires H(end) == Some(Up(st, 1))
    requires forall i :: at <= i < end ==> H(i) == HeightSemi(e, ctx, st, at, i)
    ensures Checked(c, H, at, end)
    decreases e, 0, 0
  {
    hide Emitted, Len, WellFormed, HeightAt, Follows, CheckedAt, Lands;
    var b0 := at + Len(e.first, ctx) + 1;
    SomeCode(e.rest, ctx);
    StartsAt(e.rest, ctx, st, b0);
    TypeExpr(e.first, ctx, tg, c, H, st, at);
    AtPop(c, H, b0 - 1, st);
    TypeExpr(e.rest, ctx, tg, c, H, st, b0);
  }

  lemma TypeAssign(e: Expr, ctx: Ctx, tg: Targets, c: CodeObj, H: Map, st: Stack, at: nat, end: nat)
    requires e.Assign? && Here(H, ctx, tg, st) && EmittedAssign(e, ctx, tg, c, at)
    requires WellFormedLV(e.lv, ctx) && WellFormed(e.rhs, ctx)
    requires end == at + Len(e.rhs, ctx) + LenTarget(e.lv, ctx) + 1
    requires H(end) == Some(Up(st, 1))
    requires forall i :: at <= i < end ==> H(i) == HeightAssign(e, ctx, st, at, i)
    ensures Checked(c, H, at, end)
    decreases e, 0, 0
  {
    hide Emitted, Len, WellFormed, HeightAt, Follows, CheckedAt, Lands;
    hide LenTarget;
    var t0 := at + Len(e.rhs, ctx);
    HereUp(H, ctx, tg, st, 1);
    EntryStore(e.lv, ctx, Up(st, 1), t0);
    TypeExpr(e.rhs, ctx, tg, c, H, st, at);
    TypeStore(e.lv, ctx, tg, c, H, Up(st, 1), t0, end);
  }

  lemma TypeOpAssign(e: Expr, ctx: Ctx, tg: Targets, c: CodeObj, H: Map, st: Stack, at: nat, end: nat)
    requires e.OpAssign? && Here(H, ctx, tg, st) && EmittedOpAssign(e, ctx, tg, c, at)
    requires WellFormedLV(e.lv, ctx) && WellFormed(e.rhs, ctx)
    requires end == at + LenTarget(e.lv, ctx) + LoadLen(e.lv) + Len(e.rhs, ctx) + 3
    requires H(end) == Some(Up(st, 1))
    requires forall i :: at <= i < end ==> H(i) == HeightOpAssign(e, ctx, st, at, i)
    ensures Checked(c, H, at, end)
    decreases e, 0, 0
  {
    hide Emitted, Len, WellFormed, HeightAt, Follows, CheckedAt, Lands;
    hide LenTarget, HeightTarget, LoadLen, HeightLoad, LoadAt, Operands;
    var n := Operands(e.lv);
    var l0 := at + LenTarget(e.lv, ctx);
    var r0 := l0 + LoadLen(e.lv);
    var op0 := r0 + Len(e.rhs, ctx);
    HereUp(H, ctx, tg, st, n + 1);
    SomeCode(e.rhs, ctx);
    StartsAt(e.rhs, ctx, Up(st, n + 1), r0);
    EntryLoad(e.lv, st, l0);
    TypeTarget(e.lv, ctx, tg, c, H, st, at);
    TypeLoad(e.lv, c, H, st, l0);
    TypeExpr(e.rhs, ctx, tg, c, H, Up(st, n + 1), r0);
    TypeStoreBack(e, c, H, st, op0);
  }

  lemma TypeMultiAssign(e: Expr, ctx: Ctx, tg: Targets, c: CodeObj, H: Map, st: Stack, at: nat, end: nat)
    requires e.MultiAssign? && Here(H, ctx, tg, st) && EmittedMultiAssign(e, ctx, tg, c, at)
    requires WellFormedLVs(e.lvs, ctx) && WellFormedList(e.rvs, ctx) && CountLV(e.lvs) == Count(e.rvs)
    requires end == at + LenList(e.rvs, ctx) + LenTargets(e.lvs, ctx)
    requires H(end) == Some(Up(st, 1))
    requires forall i :: at <= i < end ==> H(i) == HeightMultiAssign(e, ctx, st, at, i)
    ensures Checked(c, H, at, end)
    decreases e, 0, 0
  {
    hide Emitted, Len, WellFormed, HeightAt, Follows, CheckedAt, Lands;
    var t0 := at + LenList(e.rvs, ctx);
    EntryTargets(e.lvs, ctx, st, t0);
    TypeReverse(e.rvs, ctx, tg, c, H, st, at);
    TypeTargets(e.lvs, ctx, tg, c, H, st, t0);
  }

  lemma TypeUnpack(e: Expr, ctx: Ctx, tg: Targets, c: CodeObj, H: Map, st: Stack, at: nat, end: nat)
    requires e.Unpack? && Here(H, ctx, tg, st) && EmittedUnpack(e, ctx, tg, c, at)
    requires WellFormedLVs(e.lvs, ctx) && WellFormed(e.rhs, ctx)
    requires end == at + Len(e.rhs, ctx) + 2 + LenTargets(e.lvs, ctx)
    requires H(end) == Some(Up(st, 1))
    requires forall i :: at <= i < end ==> H(i) == HeightUnpack(e, ctx, st, at, i)
    ensures Checked(c, H, at, end)
    decreases e, 0, 0
  {
    hide Emitted, Len, WellFormed, HeightAt, Follows, CheckedAt, Lands;
    var u0 := at + Len(e.rhs, ctx);
    EntryTargets(e.lvs, ctx, st, u0 + 2);
    TypeExpr(e.rhs, ctx, tg, c, H, st, at);
    WithArg(c, H, u0, OP_UNPACK, CountLV(e.lvs), Up(st, 1));
    TypeTargets(e.lvs, ctx, tg, c, H, st, u0 + 2);
  }

  lemma TypeWhile(e: Expr, ctx: Ctx, tg: Targets, c: CodeObj, H: Map, st: Stack, at: nat, end: nat)
    requires e.Loop? && Here(H, ctx, tg, st) && EmittedWhile(e, ctx, tg, c, at)
    requires WellFormed(e.test, Header(e, ctx)) && LoopWellFormed(e, ctx)
    requires end == at + 1 + Len(e.test, Header(e, ctx)) + 2 + LoopLen(e, ctx)
    requires H(end) == Some(Up(st, 1))
    requires forall i :: at <= i < end ==> H(i) == HeightWhile(e, ctx, st, at, i)
    ensures Checked(c, H, at, end)
    decreases e, 0, 2
  {
    hide Emitted, Len, WellFormed, HeightAt, Follows, CheckedAt, Lands;
    hide LoopLen, EmittedLoop, HeightLoop;
    var j := at + 1 + Len(e.test, Header(e, ctx));
    var st1 := Marked(st);
    HereInside(H, ctx, tg, st, Scope(e.tag, false), PENDING);
    SomeCode(e.test, Header(e, ctx));
    StartsAt(e.test, Header(e, ctx), st1, at + 1);
    AtMark(c, H, at, OP_MARK, st);
    TypeExpr(e.test, Header(e, ctx), tg + [PENDING], c, H, st1, at + 1);
    EntryLoop(e, ctx, st, j + 2);
    TypeLoop(e, OP_JIFNOTPOP, ctx, tg, c, H, st, at + 1, j, j + 2);
  }

  lemma TypeForEach(e: Expr, ctx: Ctx, tg: Targets, c: CodeObj, H: Map, st: Stack, at: nat, end: nat)
    requires e.ForEach? && Here(H, ctx, tg, st) && EmittedForEach(e, ctx, tg, c, at)
    requires WellFormed(e.vec, ctx) && WellFormedLV(e.lv, Header(e, ctx)) && LoopWellFormed(e, ctx)
    requires end == at + Len(e.vec, ctx) + 5 + LenTarget(e.lv, Header(e, ctx)) + 2 + LoopLen(e, ctx) + 2
    requires H(end) == Some(Up(st, 1))
    requires forall i :: at <= i < end ==> H(i) == HeightForEach(e, ctx, st, at, i)
    ensures Checked(c, H, at, end)
    decreases e, 0, 2
  {
    hide Emitted, Len, WellFormed, HeightAt, Follows, CheckedAt, Lands;
    hide LoopLen, EmittedLoop, HeightLoop, EmittedEachHeader, HeightEachHeader, LenTarget;
    var top := at + Len(e.vec, ctx) + 2;
    var b0 := top + 5 + LenTarget(e.lv, Header(e, ctx));
    HereUp(H, ctx, tg, st, 2);
    EntryLoop(e, ctx, Up(st, 2), b0);
    EachEntry(e, ctx, st, at, top);
    TypeLoop(e, OP_JIFEND, ctx, tg, c, H, Up(st, 2), top, top + 1, b0);
    TypeEachHeader(e, ctx, tg, c, H, st, at, top, b0);
    AtPop(c, H, end - 2, Up(st, 2));
    AtPop(c, H, end - 1, Up(st, 1));
  }

  lemma EntryLoop(e: Expr, ctx: Ctx, st: Stack, b0: nat)
    requires IsLoop(e) && |st.marks| == |ctx|
    ensures LoopLen(e, ctx) > 0 && HeightLoop(e, ctx, st, b0, b0) == Some(Marked(st))
  {
    hide Len, HeightAt;
  }

  /** The first words of an iteration of a `foreach`. */
  lemma EachEntry(e: Expr, ctx: Ctx, st: Stack, at: nat, top: nat)
    requires e.ForEach? && |st.marks| == |ctx| && top == at + Len(e.vec, ctx) + 2
    requires WellFormedLV(e.lv, Header(e, ctx))
    ensures HeightEachHeader(e, ctx, st, at, top, top + 3) == Some(Up(Marked(Up(st, 2)), 1))
    ensures HeightEachHeader(e, ctx, st, at, top, top) == Some(Marked(Up(st, 2)))
    ensures HeightEachHeader(e, ctx, st, at, top, top + 1) == Some(Up(Marked(Up(st, 2)), 1))
    ensures HeightEachHeader(e, ctx, st, at, top, top + 2) == None
  {
    hide Len, HeightAt, LenTarget, HeightStore, WellFormed;
    EntryTarget(e.lv, Header(e, ctx), Up(Marked(Up(st, 2)), 1), top + 3);
    EntryStore(e.lv, Header(e, ctx), Up(Marked(Up(st, 2)), 1), top + 3);
  }

  lemma TypeEachHeader(e: Expr, ctx: Ctx, tg: Targets, c: CodeObj, H: Map, st: Stack, at: nat, top: nat, b0: nat)
    requires e.ForEach? && Here(H, ctx, tg, st) && EmittedEachHeader(e, ctx, tg, c, at, top)
    requires WellFormed(e.vec, ctx) && WellFormedLV(e.lv, Header(e, ctx))
    requires b0 == top + 5 + LenTarget(e.lv, Header(e, ctx)) && H(b0) == Some(Marked(Up(st, 2)))
    requires forall i :: at <= i < b0 ==> H(i) == HeightEachHeader(e, ctx, st, at, top, i)
    ensures Checked(c, H, at, top + 1) && Checked(c, H, top + 3, b0)
    decreases e, 0, 0
  {
    hide Emitted, Len, WellFormed, HeightAt, Follows, CheckedAt, Lands, LenTarget, EmittedStore, HeightStore, HasArg,
        Needs, Net;
    var inside := Marked(Up(st, 2));
    var ctx1, tg1 := Header(e, ctx), tg + [PENDING];
    TypeExpr(e.vec, ctx, tg, c, H, st, at);
    AtPush(c, H, top - 2, OP_PUSHZERO, Up(st, 1));
    AtMark(c, H, top - 1, OP_MARK, Up(st, 2));
    AtPush(c, H, top, if e.useIndex then OP_INDEX else OP_EACH, inside);
    HereUp(H, ctx, tg, st, 2);
    HereInside(H, ctx, tg, Up(st, 2), Scope(e.tag, false), PENDING);
    HereUp(H, ctx1, tg1, inside, 1);
    TypeStore(e.lv, ctx1, tg1, c, H, Up(inside, 1), top + 3, b0 - 1);
    AtPop(c, H, b0 - 1, inside);
  }

  /** The loop part, from the exit jump at `j` and from `b0` on: a break lands on
      the exit jump, a continue on the continue jump, at the heights they leave. */
  lemma TypeLoop(e: Expr, exit: nat, ctx: Ctx, tg: Targets, c: CodeObj, H: Map, st: Stack, top: nat, j: nat, b0: nat)
    requires IsLoop(e) && Here(H, ctx, tg, st) && EmittedLoop(e, exit, ctx, tg, c, top, j, b0) && LoopWellFormed(e, ctx)
    requires exit == OP_JIFNOTPOP || exit == OP_JIFEND
    requires H(top) == Some(Marked(st)) && H(j) == Some(Up(Marked(st), 1)) && H(j + 1) == None
    requires H(j + 2) == if exit == OP_JIFEND then Some(Up(Marked(st), 1)) else Some(Marked(st))
    requires H(b0) == Some(Marked(st)) && H(b0 + LoopLen(e, ctx)) == Some(Up(st, 1))
    requires forall i :: b0 <= i < b0 + LoopLen(e, ctx) ==> H(i) == HeightLoop(e, ctx, st, b0, i)
    ensures Checked(c, H, j, j + 2) && Checked(c, H, b0, b0 + LoopLen(e, ctx))
    decreases e, 0, 1
  {
    hide Emitted, Len, WellFormed, HeightAt, Follows, CheckedAt, Lands, HeightBody, HeightUpdate, EmittedBody,
        EmittedUpdate, UpdateLen, HasArg, Branches, Loops, Needs, Net;
    var inside, st1 := Inside(e, ctx), Marked(st);
    var inner := tg + [Target(j, b0 + 2)];
    var u0 := b0 + 4 + Len(e.body, inside) + 1;
    var end := u0 + UpdateLen(e, ctx) + 2;
    LoopWords(e, ctx, st, b0);
    HereInside(H, ctx, tg, st, Scope(e.tag, true), Target(j, b0 + 2));
    AtExit(c, H, j, exit, end, st1);
    TypeBody(e, inside, inner, c, H, st1, b0, u0);
    TypeUpdate(e, inside, inner, c, H, st1, u0, end - 2);
    AtJump(c, H, end - 2, OP_JMPLOOP, top, st1);
    AtUnmark(c, H, end, st);
    AtPush(c, H, end + 1, OP_PUSHNIL, st);
  }

  /** The words of the loop part that its pieces share. */
  lemma LoopWords(e: Expr, ctx: Ctx, st: Stack, b0: nat)
    requires IsLoop(e) && |st.marks| == |ctx| && LoopWellFormed(e, ctx)
    ensures var u0 := b0 + 4 + Len(e.body, Inside(e, ctx)) + 1;
            var end := u0 + UpdateLen(e, ctx) + 2;
            && LoopLen(e, ctx) == end + 2 - b0
            && UpdateLen(e, ctx) == (if e.Loop? && e.update.Some? then Len(e.update.value, Inside(e, ctx)) + 1 else 0)
            && HeightLoop(e, ctx, st, b0, b0 + 2) == Some(Marked(st))
            && HeightLoop(e, ctx, st, b0, u0) == Some(Marked(st))
  {
    hide Len, HeightAt, WellFormed;
    var u0 := b0 + 4 + Len(e.body, Inside(e, ctx)) + 1;
    if e.Loop? && e.update.Some? {
      SomeCode(e.update.value, Inside(e, ctx));
      StartsAt(e.update.value, Inside(e, ctx), Marked(st), u0);
    }
  }

  lemma TypeBody(e: Expr, inside: Ctx, inner: Targets, c: CodeObj, H: Map, st: Stack, b0: nat, end: nat)
    requires IsLoop(e) && Here(H, inside, inner, st)
    requires EmittedBody(e, inside, inner, c, b0) && WellFormed(e.body, inside)
    requires end == b0 + 4 + Len(e.body, inside) + 1 && H(end) == Some(st)
    requires forall i :: b0 <= i < end ==> H(i) == HeightBody(e, inside, st, b0, i)
    ensures Checked(c, H, b0, end)
    decreases e, 0, 0
  {
    hide Emitted, Len, WellFormed, HeightAt, Follows, CheckedAt, Lands;
    SomeCode(e.body, inside);
    StartsAt(e.body, inside, st, b0 + 4);
    AtJump(c, H, b0, OP_JMP, b0 + 4, st);
    AtJump(c, H, b0 + 2, OP_JMP, end, st);
    TypeExpr(e.body, inside, inner, c, H, st, b0 + 4);
    AtPop(c, H, end - 1, st);
  }

  lemma TypeUpdate(e: Expr, inside: Ctx, inner: Targets, c: CodeObj, H: Map, st: Stack, at: nat, end: nat)
    requires IsLoop(e) && Here(H, inside, inner, st) && EmittedUpdate(e, inside, inner, c, at)
    requires e.Loop? && e.update.Some? ==> WellFormed(e.update.value, inside)
    requires end == at + (if e.Loop? && e.update.Some? then Len(e.update.value, inside) + 1 else 0)
    requires H(end) == Some(st)
    requires forall i :: at <= i < end ==> H(i) == HeightUpdate(e, inside, st, at, i)
    ensures Checked(c, H, at, end)
    decreases e, 0, 0
  {
    hide Emitted, Len, WellFormed, HeightAt, Follows, CheckedAt, Lands;
    if e.Loop? && e.update.Some? {
      TypeExpr(e.update.value, inside, inner, c, H, st, at);
      AtPop(c, H, end - 1, st);
    }
  }

  lemma TypeReturn(e: Expr, ctx: Ctx, tg: Targets, c: CodeObj, H: Map, st: Stack, at: nat, end: nat)
    requires e.Return? && Here(H, ctx, tg, st) && EmittedReturn(e, ctx, tg, c, at)
    requires WellFormed(e.arg, ctx)
    requires end == at + Len(e.arg, ctx) + |ctx| + 1
    requires H(end) == Some(Up(st, 1))
    requires forall i :: at <= i < end ==> H(i) == HeightReturn(e, ctx, st, at, i)
    ensures Checked(c, H, at, end)
    decreases e, 0, 0
  {
    hide Emitted, Len, WellFormed, HeightAt, Follows, CheckedAt, Lands;
    var u0 := at + Len(e.arg, ctx);
    assert st.marks[..|ctx|] == st.marks;
    TypeExpr(e.arg, ctx, tg, c, H, st, at);
    forall i | u0 <= i < u0 + |ctx|
      ensures CheckedAt(c, H, i)
    {
      var st1 := Stack(st.ops + 1, st.marks[..|ctx| - (i - u0)]);
      assert st1.marks[..|st1.marks| - 1] == st.marks[..|ctx| - (i + 1 - u0)];
      AtMark(c, H, i, OP_UNMARK, st1);
    }
    AtReturn(c, H, end - 1, Stack(st.ops + 1, []));
  }

  lemma TypeBreak(e: Expr, ctx: Ctx, tg: Targets, c: CodeObj, H: Map, st: Stack, at: nat, end: nat)
    requires e.Break? && Here(H, ctx, tg, st) && EmittedBreak(e, ctx, tg, c, at)
    requires Jumps(ctx, e.target)
    requires end == at + JumpLen(ctx, e.target) + 1
    requires H(end) == Some(Up(st, 1))
    requires forall i :: at <= i < end ==> H(i) == HeightBreak(e, ctx, st, at, i)
    ensures Checked(c, H, at, end)
    decreases e, 0, 0
  {
    hide Emitted, Len, WellFormed, HeightAt, Follows, CheckedAt, Lands;
    var j := Resolve(ctx, e.target).value;
    var n := |ctx| - j;
    TypeUnwind(ctx, tg, c, H, st, at, j);
    Lands1(H, ctx, tg, st, j);
    AtPush(c, H, at + n, OP_PUSHEND, Landing(st, j));
    AtJump(c, H, at + n + 1, OP_JMP, tg[j].breakIP, Up(Landing(st, j), 1));
  }

  lemma TypeContinue(e: Expr, ctx: Ctx, tg: Targets, c: CodeObj, H: Map, st: Stack, at: nat, end: nat)
    requires e.Continue? && Here(H, ctx, tg, st) && EmittedContinue(e, ctx, tg, c, at)
    requires Jumps(ctx, e.target)
    requires end == at + JumpLen(ctx, e.target)
    requires H(end) == Some(Up(st, 1))
    requires forall i :: at <= i < end ==> H(i) == HeightContinue(e, ctx, st, at, i)
    ensures Checked(c, H, at, end)
    decreases e, 0, 0
  {
    hide Emitted, Len, WellFormed, HeightAt, Follows, CheckedAt, Lands;
    var j := Resolve(ctx, e.target).value;
    var n := |ctx| - j;
    TypeUnwind(ctx, tg, c, H, st, at, j);
    Lands1(H, ctx, tg, st, j);
    AtJump(c, H, at + n, OP_JMP, tg[j].contIP, Landing(st, j));
  }

  lemma Lands1(H: Map, ctx: Ctx, tg: Targets, st: Stack, j: nat)
    requires Here(H, ctx, tg, st) && j < |ctx| && ctx[j].open
    ensures H(tg[j].contIP) == Some(Landing(st, j)) && H(tg[j].breakIP) == Some(Up(Landing(st, j), 1))
  {
    assert LandsAt(H, tg[j], Landing(st, j));
  }

  /** Giving marks back down to loop `j` never raises the operands. */
  lemma TypeUnwind(ctx: Ctx, tg: Targets, c: CodeObj, H: Map, st: Stack, at: nat, j: nat)
    requires Here(H, ctx, tg, st) && j < |ctx| && Unwind(c, at, |ctx| - j)
    requires forall i :: at <= i < at + |ctx| - j ==> H(i) == Some(Cut(st, i - at))
    requires H(at + |ctx| - j) == Some(Landing(st, j))
    ensures Checked(c, H, at, at + |ctx| - j)
  {
    hide Follows, CheckedAt, Lands;
    var n := |ctx| - j;
    forall i | at <= i < at + n
      ensures CheckedAt(c, H, i)
    {
      var k := i - at;
      var st1 := Cut(st, k);
      assert |st1.marks| == |ctx| - k;
      assert st1.marks[|st1.marks| - 1] == st.marks[|ctx| - k - 1];
      assert st1.marks[..|st1.marks| - 1] == st.marks[..|ctx| - k - 1];
      if k < n - 1 {
        AtMark(c, H, i, OP_BREAK2, st1);
      } else {
        assert st1.marks == st.marks[..j + 1];
        AtMark(c, H, i, OP_BREAK, st1);
      }
    }
  }

  lemma TypeCall(e: Expr, ctx: Ctx, tg: Targets, c: CodeObj, H: Map, st: Stack, at: nat, end: nat)
    requires e.Call? && Here(H, ctx, tg, st) && EmittedCall(e, ctx, tg, c, at)
    requires WellFormed(e.f, ctx) && WellFormedList(e.args, ctx)
    requires end == at + Len(e.f, ctx) + LenList(e.args, ctx) + 2
    requires H(end) == Some(Up(st, 1))
    requires forall i :: at <= i < end ==> H(i) == HeightCall(e, ctx, st, at, i)
    ensures Checked(c, H, at, end)
    decreases e, 0, 0
  {
    hide Emitted, Len, WellFormed, HeightAt, Follows, CheckedAt, Lands;
    hide LenList, HeightList, WellFormedList;
    var a0 := at + Len(e.f, ctx);
    HereUp(H, ctx, tg, st, 1);
    ListEntry(e.args, ctx, Up(st, 1), a0);
    TypeExpr(e.f, ctx, tg, c, H, st, at);
    TypeList(e.args, ctx, tg, c, H, Up(st, 1), a0);
    WithArg(c, H, end - 2, OP_FCALL, Count(e.args), Up(st, 1 + Count(e.args)));
  }

  lemma TypeMethodCall(e: Expr, ctx: Ctx, tg: Targets, c: CodeObj, H: Map, st: Stack, at: nat, end: nat)
    requires e.MethodCall? && Here(H, ctx, tg, st) && EmittedMethodCall(e, ctx, tg, c, at)
    requires WellFormed(e.obj, ctx) && WellFormedList(e.args, ctx)
    requires end == at + Len(e.obj, ctx) + 3 + LenList(e.args, ctx) + 2
    requires H(end) == Some(Up(st, 1))
    requires forall i :: at <= i < end ==> H(i) == HeightMethodCall(e, ctx, st, at, i)
    ensures Checked(c, H, at, end)
    decreases e, 0, 0
  {
    hide Emitted, Len, WellFormed, HeightAt, Follows, CheckedAt, Lands;
    hide LenList, HeightList, WellFormedList;
    var a0 := at + Len(e.obj, ctx) + 3;
    HereUp(H, ctx, tg, st, 2);
    ListEntry(e.args, ctx, Up(st, 2), a0);
    TypeMethod(e.obj, e.field, ctx, tg, c, H, st, at);
    TypeList(e.args, ctx, tg, c, H, Up(st, 2), a0);
    WithArg(c, H, end - 2, OP_MCALL, Count(e.args), Up(st, 2 + Count(e.args)));
  }

  lemma TypeNamedCall(e: Expr, ctx: Ctx, tg: Targets, c: CodeObj, H: Map, st: Stack, at: nat, end: nat)
    requires e.NamedCall? && Here(H, ctx, tg, st) && EmittedNamedCall(e, ctx, tg, c, at)
    requires WellFormed(e.f, ctx) && WellFormed(e.named, ctx)
    requires end == at + Len(e.f, ctx) + Len(e.named, ctx) + 1
    requires H(end) == Some(Up(st, 1))
    requires forall i :: at <= i < end ==> H(i) == HeightNamedCall(e, ctx, st, at, i)
    ensures Checked(c, H, at, end)
    decreases e, 0, 0
  {
    hide Emitted, Len, WellFormed, HeightAt, Follows, CheckedAt, Lands;
    var h0 := at + Len(e.f, ctx);
    HereUp(H, ctx, tg, st, 1);
    SomeCode(e.named, ctx);
    StartsAt(e.named, ctx, Up(st, 1), h0);
    TypeExpr(e.f, ctx, tg, c, H, st, at);
    TypeExpr(e.named, ctx, tg, c, H, Up(st, 1), h0);
    Plain(c, H, end - 1, OP_FCALLH, Up(st, 2));
  }

  lemma TypeNamedMethodCall(e: Expr, ctx: Ctx, tg: Targets, c: CodeObj, H: Map, st: Stack, at: nat, end: nat)
    requires e.NamedMethodCall? && Here(H, ctx, tg, st) && EmittedNamedMethodCall(e, ctx, tg, c, at)
    requires WellFormed(e.obj, ctx) && WellFormed(e.named, ctx)
    requires end == at + Len(e.obj, ctx) + 3 + Len(e.named, ctx) + 1
    requires H(end) == Some(Up(st, 1))
    requires forall i :: at <= i < end ==> H(i) == HeightNamedMethodCall(e, ctx, st, at, i)
    ensures Checked(c, H, at, end)
    decreases e, 0, 0
  {
    hide Emitted, Len, WellFormed, HeightAt, Follows, CheckedAt, Lands;
    var h0 := at + Len(e.obj, ctx) + 3;
    HereUp(H, ctx, tg, st, 2);
    SomeCode(e.named, ctx);
    StartsAt(e.named, ctx, Up(st, 2), h0);
    TypeMethod(e.obj, e.field, ctx, tg, c, H, st, at);
    TypeExpr(e.named, ctx, tg, c, H, Up(st, 2), h0);
    Plain(c, H, end - 1, OP_MCALLH, Up(st, 3));
  }

  /** The receiver, and above it the method found in it. */
  lemma TypeMethod(obj: Expr, field: string, ctx: Ctx, tg: Targets, c: CodeObj, H: Map, st: Stack, at: nat)
    requires Here(H, ctx, tg, st) && EmittedMethod(obj, field, ctx, tg, c, at) && WellFormed(obj, ctx)
    requires H(at + Len(obj, ctx) + 3) == Some(Up(st, 2))
    requires forall i :: at <= i < at + Len(obj, ctx) + 3 ==> H(i) == HeightMethod(obj, ctx, st, at, i)
    ensures Checked(c, H, at, at + Len(obj, ctx) + 3)
    decreases obj, 2
  {
    hide Emitted, Len, WellFormed, HeightAt, Follows, CheckedAt, Lands, Here;
    var d0 := at + Len(obj, ctx);
    TypeExpr(obj, ctx, tg, c, H, st, at);
    Plain(c, H, d0, OP_DUP, Up(st, 1));
    WithConst(c, H, d0 + 1, OP_MEMBER, Text(field), Up(st, 2));
  }

  lemma ListEntry(es: Exprs, ctx: Ctx, st: Stack, at: nat)
    requires |st.marks| == |ctx| && WellFormedList(es, ctx)
    ensures es.NoExprs? ==> LenList(es, ctx) == 0 && Count(es) == 0
    ensures es.More? ==> LenList(es, ctx) > 0 && HeightList(es, ctx, st, at, at) == Some(st)
  {
    if es.More? {
      EntryList(es, ctx, st, at);
    }
  }

  lemma TypeList(es: Exprs, ctx: Ctx, tg: Targets, c: CodeObj, H: Map, st: Stack, at: nat)
    requires Here(H, ctx, tg, st) && EmittedList(es, ctx, tg, c, at) && WellFormedList(es, ctx)
    requires H(at + LenList(es, ctx)) == Some(Up(st, Count(es)))
    requires forall i :: at <= i < at + LenList(es, ctx) ==> H(i) == HeightList(es, ctx, st, at, i)
    ensures Checked(c, H, at, at + LenList(es, ctx))
    decreases es, 0
  {
    hide Emitted, Len, WellFormed, HeightAt, Follows, CheckedAt, Lands;
    if es.More? {
      var t0 := at + Len(es.head, ctx);
      HereUp(H, ctx, tg, st, 1);
      ListEntry(es.tail, ctx, Up(st, 1), t0);
      TypeExpr(es.head, ctx, tg, c, H, st, at);
      TypeList(es.tail, ctx, tg, c, H, Up(st, 1), t0);
    }
  }

  lemma TypeReverse(es: Exprs, ctx: Ctx, tg: Targets, c: CodeObj, H: Map, st: Stack, at: nat)
    requires Here(H, ctx, tg, st) && EmittedReverse(es, ctx, tg, c, at) && WellFormedList(es, ctx)
    requires H(at + LenList(es, ctx)) == Some(Up(st, Count(es)))
    requires forall i :: at <= i < at + LenList(es, ctx) ==> H(i) == HeightReverse(es, ctx, st, at, i)
    ensures Checked(c, H, at, at + LenList(es, ctx))
    decreases es, 0
  {
    hide Emitted, Len, WellFormed, HeightAt, Follows, CheckedAt, Lands;
    if es.More? {
      var n := Count(es.tail);
      var e0 := at + LenList(es.tail, ctx);
      HereUp(H, ctx, tg, st, n);
      SomeCode(es.head, ctx);
      StartsAt(es.head, ctx, Up(st, n), e0);
      TypeReverse(es.tail, ctx, tg, c, H, st, at);
      TypeExpr(es.head, ctx, tg, c, H, Up(st, n), e0);
    }
  }

  lemma TypeTarget(lv: LValue, ctx: Ctx, tg: Targets, c: CodeObj, H: Map, st: Stack, at: nat)
    requires Here(H, ctx, tg, st) && EmittedTarget(lv, ctx, tg, c, at) && WellFormedLV(lv, ctx)
    requires H(at + LenTarget(lv, ctx)) == Some(Up(st, Operands(lv)))
    requires forall i :: at <= i < at + LenTarget(lv, ctx) ==> H(i) == HeightTarget(lv, ctx, st, at, i)
    ensures Checked(c, H, at, at + LenTarget(lv, ctx))
    decreases lv, 0
  {
    hide Emitted, Len, WellFormed, HeightAt, Follows, CheckedAt, Lands;
    match lv
    case LSym(x) => WithConst(c, H, at, OP_PUSHCONST, Text(x), st);
    case LVar(x) => WithConst(c, H, at, OP_PUSHCONST, Text(x), st);
    case LMember(obj, f) =>
      TypeExpr(obj, ctx, tg, c, H, st, at);
      WithConst(c, H, at + Len(obj, ctx), OP_PUSHCONST, Text(f), Up(st, 1));
    case LIndex(box, key) =>
      var k0 := at + Len(box, ctx);
      HereUp(H, ctx, tg, st, 1);
      SomeCode(key, ctx);
      StartsAt(key, ctx, Up(st, 1), k0);
      TypeExpr(box, ctx, tg, c, H, st, at);
      TypeExpr(key, ctx, tg, c, H, Up(st, 1), k0);
  }

  lemma TypeLoad(lv: LValue, c: CodeObj, H: Map, st: Stack, at: nat)
    requires LoadAt(lv, c, at) && H(at + LoadLen(lv)) == Some(Up(st, Operands(lv) + 1))
    requires forall i :: at <= i < at + LoadLen(lv) ==> H(i) == HeightLoad(lv, st, at, i)
    ensures Checked(c, H, at, at + LoadLen(lv))
  {
    hide Follows, CheckedAt;
    match lv
    case LSym(x) => WithConst(c, H, at, OP_LOCAL, Text(x), Up(st, 1));
    case LVar(x) => WithConst(c, H, at, OP_LOCAL, Text(x), Up(st, 1));
    case LMember(_, f) =>
      Plain(c, H, at, OP_DUP2, Up(st, 2));
      Plain(c, H, at + 1, OP_POP, Up(st, 4));
      WithConst(c, H, at + 2, OP_MEMBER, Text(f), Up(st, 3));
    case LIndex(_, _) =>
      Plain(c, H, at, OP_DUP2, Up(st, 2));
      Plain(c, H, at + 1, OP_EXTRACT, Up(st, 4));
  }

  lemma EntryLoad(lv: LValue, st: Stack, at: nat)
    ensures LoadLen(lv) > 0 && HeightLoad(lv, st, at, at) == Some(Up(st, Operands(lv)))
  {
  }

  /** The operator, and the store of its result below the operands of the target. */
  lemma TypeStoreBack(e: Expr, c: CodeObj, H: Map, st: Stack, at: nat)
    requires e.OpAssign? && Op(c, at, BinaryCode(e.op)) && Op(c, at + 2, StoreCode(e.lv))
    requires Op(c, at + 1, if e.lv.LSym? || e.lv.LVar? then OP_XCHG else OP_XCHG2)
    requires H(at) == Some(Up(st, Operands(e.lv) + 2)) && H(at + 1) == Some(Up(st, Operands(e.lv) + 1))
    requires H(at + 2) == Some(Up(st, Operands(e.lv) + 1)) && H(at + 3) == Some(Up(st, 1))
    ensures Checked(c, H, at, at + 3)
  {
    hide Follows, CheckedAt;
    var n := Operands(e.lv);
    BinaryCodes(e.op);
    Plain(c, H, at, BinaryCode(e.op), Up(st, n + 2));
    Plain(c, H, at + 1, if e.lv.LSym? || e.lv.LVar? then OP_XCHG else OP_XCHG2, Up(st, n + 1));
    Plain(c, H, at + 2, StoreCode(e.lv), Up(st, n + 1));
  }

  lemma TypeStore(lv: LValue, ctx: Ctx, tg: Targets, c: CodeObj, H: Map, st: Stack, at: nat, end: nat)
    requires Here(H, ctx, tg, st) && EmittedStore(lv, ctx, tg, c, at) && WellFormedLV(lv, ctx) && st.ops > 0
    requires end == at + LenTarget(lv, ctx) + 1 && H(end) == Some(st)
    requires forall i :: at <= i < end ==> H(i) == HeightStore(lv, ctx, st, at, i)
    ensures Checked(c, H, at, end)
    decreases lv, 1
  {
    hide Follows, CheckedAt, Lands, EmittedTarget, HeightTarget, LenTarget;
    TypeTarget(lv, ctx, tg, c, H, st, at);
    Plain(c, H, end - 1, StoreCode(lv), Up(st, Operands(lv)));
  }

  lemma TypeTargets(lvs: LValues, ctx: Ctx, tg: Targets, c: CodeObj, H: Map, st: Stack, at: nat)
    requires Here(H, ctx, tg, st) && EmittedTargets(lvs, ctx, tg, c, at) && WellFormedLVs(lvs, ctx)
    requires H(at + LenTargets(lvs, ctx)) == Some(Up(st, 1))
    requires forall i :: at <= i < at + LenTargets(lvs, ctx) ==> H(i) == HeightTargets(lvs, ctx, st, at, i)
    ensures Checked(c, H, at, at + LenTargets(lvs, ctx))
    decreases lvs, 2
  {
    hide Follows, CheckedAt, Lands, EmittedStore, HeightStore, LenTarget, HasArg, Needs, Net, WellFormedLV;
    var n := CountLV(lvs);
    var p0 := at + LenTarget(lvs.lv, ctx) + 1;
    HereUp(H, ctx, tg, st, n);
    EntryTarget(lvs.lv, ctx, Up(st, n), at);
    if lvs.MoreLV? {
      EntryTargets(lvs.rest, ctx, st, p0 + 1);
      RestAgrees(lvs, ctx, H, st, at);
      TypeTargets(lvs.rest, ctx, tg, c, H, st, p0 + 1);
      AtPop(c, H, p0, Up(st, n - 1));
    }
    TypeStore(lvs.lv, ctx, tg, c, H, Up(st, n), at, p0);
  }

  /** Behind the first target and its pop come the others. */
  lemma RestAgrees(lvs: LValues, ctx: Ctx, H: Map, st: Stack, at: nat)
    requires lvs.MoreLV? && |st.marks| == |ctx|
    requires forall i :: at <= i < at + LenTargets(lvs, ctx) ==> H(i) == HeightTargets(lvs, ctx, st, at, i)
    ensures var p1 := at + LenTarget(lvs.lv, ctx) + 2;
            && at + LenTargets(lvs, ctx) == p1 + LenTargets(lvs.rest, ctx)
            && H(p1 - 1) == Some(Up(st, CountLV(lvs)))
            && forall i :: p1 <= i < p1 + LenTargets(lvs.rest, ctx) ==> H(i) == HeightTargets(lvs.rest, ctx, st, p1, i)
  {
    hide LenTarget, HeightStore;
  }

  lemma BinaryCodes(op: BinOp)
    ensures var k := BinaryCode(op);
            !HasArg(k) && !Branches(k) && !Loops(k) && k != OP_RETURN && Needs(k, 0) == 2 && Net(k, 0) == -1
  {
    assert BinaryOf(BinaryCode(op)) == Some(op);
  }

  lemma TypeLeaf(e: Expr, c: CodeObj, H: Map, st: Stack, at: nat)
    requires IsLeaf(e) && EmittedLeaf(e, c, at) && H(at + LeafLen(e)) == Some(Up(st, 1))
    requires forall i :: at <= i < at + LeafLen(e) ==> H(i) == Own(i, at, st)
    ensures Checked(c, H, at, at + LeafLen(e))
  {
    hide Follows, CheckedAt;
    match e
    case NilLit => AtPush(c, H, at, OP_PUSHNIL, st);
    case NumLit(n) => AtNumber(c, H, at, n, st);
    case StrLit(s) => WithConst(c, H, at, OP_PUSHCONST, Text(s), st);
    case SymLit(s) => WithConst(c, H, at, OP_PUSHCONST, Text(s), st);
    case Lambda(k) => WithConst(c, H, at, OP_PUSHCONST, Code(k), st);
    case Sym(x) => WithConst(c, H, at, OP_LOCAL, Text(x), st);
    case NewVec => Plain(c, H, at, OP_NEWVEC, st);
    case NewHash => Plain(c, H, at, OP_NEWHASH, st);
  }

  lemma TypeChoice(e: Expr, ctx: Ctx, tg: Targets, c: CodeObj, H: Map, st: Stack, at: nat)
    requires e.Cond? || e.Semi?
    requires Here(H, ctx, tg, st) && Emitted(e, ctx, tg, c, at) && WellFormed(e, ctx)
    requires Agrees(H, e, ctx, st, at) && H(at + Len(e, ctx)) == Some(Up(st, 1))
    ensures Checked(c, H, at, at + Len(e, ctx))
    decreases e, 0, 3
  {
    hide Here, Checked, EmittedCond, EmittedSemi, HeightCond, HeightSemi;
    var end := at + Len(e, ctx);
    match e
    case Cond(_, _, _) => TypeCond(e, ctx, tg, c, H, st, at, end);
    case Semi(_, _) => TypeSemi(e, ctx, tg, c, H, st, at, end);
  }

  lemma TypeLogic(e: Expr, ctx: Ctx, tg: Targets, c: CodeObj, H: Map, st: Stack, at: nat)
    requires e.And? || e.Or?
    requires Here(H, ctx, tg, st) && Emitted(e, ctx, tg, c, at) && WellFormed(e, ctx)
    requires Agrees(H, e, ctx, st, at) && H(at + Len(e, ctx)) == Some(Up(st, 1))
    ensures Checked(c, H, at, at + Len(e, ctx))
    decreases e, 0, 3
  {
    hide Here, Checked, EmittedShort, HeightShort;
    TypeShort(e, ctx, tg, c, H, st, at, at + Len(e, ctx));
  }

  lemma TypeLooping(e: Expr, ctx: Ctx, tg: Targets, c: CodeObj, H: Map, st: Stack, at: nat)
    requires e.Loop? || e.ForEach?
    requires Here(H, ctx, tg, st) && Emitted(e, ctx, tg, c, at) && WellFormed(e, ctx)
    requires Agrees(H, e, ctx, st, at) && H(at + Len(e, ctx)) == Some(Up(st, 1))
    ensures Checked(c, H, at, at + Len(e, ctx))
    decreases e, 0, 3
  {
    hide Here, Checked, EmittedWhile, EmittedForEach, HeightWhile, HeightForEach;
    var end := at + Len(e, ctx);
    match e
    case Loop(_, _, _, _) => TypeWhile(e, ctx, tg, c, H, st, at, end);
    case ForEach(_, _, _, _, _) => TypeForEach(e, ctx, tg, c, H, st, at, end);
  }

  lemma TypeLeaving(e: Expr, ctx: Ctx, tg: Targets, c: CodeObj, H: Map, st: Stack, at: nat)
    requires e.Break? || e.Continue? || e.Return?
    requires Here(H, ctx, tg, st) && Emitted(e, ctx, tg, c, at) && WellFormed(e, ctx)
    requires Agrees(H, e, ctx, st, at) && H(at + Len(e, ctx)) == Some(Up(st, 1))
    ensures Checked(c, H, at, at + Len(e, ctx))
    decreases e, 0, 3
  {
    hide Here, Checked, EmittedBreak, EmittedContinue, EmittedReturn, HeightBreak, HeightContinue, HeightReturn;
    var end := at + Len(e, ctx);
    match e
    case Break(_) => TypeBreak(e, ctx, tg, c, H, st, at, end);
    case Continue(_) => TypeContinue(e, ctx, tg, c, H, st, at, end);
    case Return(_) => TypeReturn(e, ctx, tg, c, H, st, at, end);
  }

  lemma TypeStores(e: Expr, ctx: Ctx, tg: Targets, c: CodeObj, H: Map, st: Stack, at: nat)
    requires e.Assign? || e.OpAssign? || e.MultiAssign? || e.Unpack?
    requires Here(H, ctx, tg, st) && Emitted(e, ctx, tg, c, at) && WellFormed(e, ctx)
    requires Agrees(H, e, ctx, st, at) && H(at + Len(e, ctx)) == Some(Up(st, 1))
    ensures Checked(c, H, at, at + Len(e, ctx))
    decreases e, 0, 3
  {
    hide Here, Checked, EmittedAssign, EmittedOpAssign, EmittedMultiAssign, EmittedUnpack, HeightAssign,
        HeightOpAssign, HeightMultiAssign, HeightUnpack;
    var end := at + Len(e, ctx);
    match e
    case Assign(_, _) => TypeAssign(e, ctx, tg, c, H, st, at, end);
    case OpAssign(_, _, _) => TypeOpAssign(e, ctx, tg, c, H, st, at, end);
    case MultiAssign(_, _) => TypeMultiAssign(e, ctx, tg, c, H, st, at, end);
    case Unpack(_, _) => TypeUnpack(e, ctx, tg, c, H, st, at, end);
  }

  lemma TypeOperation(e: Expr, ctx: Ctx, tg: Targets, c: CodeObj, H: Map, st: Stack, at: nat)
    requires e.Unary? || e.Binary? || e.HashAppend? || e.Member?
    requires Here(H, ctx, tg, st) && Emitted(e, ctx, tg, c, at) && WellFormed(e, ctx)
    requires Agrees(H, e, ctx, st, at) && H(at + Len(e, ctx)) == Some(Up(st, 1))
    ensures Checked(c, H, at, at + Len(e, ctx))
    decreases e, 0, 3
  {
    hide Here, Checked, EmittedUnary, EmittedBinary, EmittedHashAppend, EmittedMember, HeightUnary,
        HeightBinary, HeightHashAppend, HeightMember;
    var end := at + Len(e, ctx);
    match e
    case Unary(_, _) => TypeUnary(e, ctx, tg, c, H, st, at, end);
    case Binary(_, _, _) => TypeBinary(e, ctx, tg, c, H, st, at, end);
    case HashAppend(_, _, _) => TypeHashAppend(e, ctx, tg, c, H, st, at, end);
    case Member(_, _) => TypeMember(e, ctx, tg, c, H, st, at, end);
  }

  lemma TypeCalls(e: Expr, ctx: Ctx, tg: Targets, c: CodeObj, H: Map, st: Stack, at: nat)
    requires e.Call? || e.MethodCall?
    requires Here(H, ctx, tg, st) && Emitted(e, ctx, tg, c, at) && WellFormed(e, ctx)
    requires Agrees(H, e, ctx, st, at) && H(at + Len(e, ctx)) == Some(Up(st, 1))
    ensures Checked(c, H, at, at + Len(e, ctx))
    decreases e, 0, 3
  {
    hide Here, Checked, EmittedCall, EmittedMethodCall, HeightCall, HeightMethodCall;
    var end := at + Len(e, ctx);
    match e
    case Call(_, _) => TypeCall(e, ctx, tg, c, H, st, at, end);
    case MethodCall(_, _, _) => TypeMethodCall(e, ctx, tg, c, H, st, at, end);
  }

  lemma TypeNaming(e: Expr, ctx: Ctx, tg: Targets, c: CodeObj, H: Map, st: Stack, at: nat)
    requires e.NamedCall? || e.NamedMethodCall?
    requires Here(H, ctx, tg, st) && Emitted(e, ctx, tg, c, at) && WellFormed(e, ctx)
    requires Agrees(H, e, ctx, st, at) && H(at + Len(e, ctx)) == Some(Up(st, 1))
    ensures Checked(c, H, at, at + Len(e, ctx))
    decreases e, 0, 3
  {
    hide Here, Checked, EmittedNamedCall, EmittedNamedMethodCall, HeightNamedCall, HeightNamedMethodCall;
    var end := at + Len(e, ctx);
    match e
    case NamedCall(_, _) => TypeNamedCall(e, ctx, tg, c, H, st, at, end);
    case NamedMethodCall(_, _, _) => TypeNamedMethodCall(e, ctx, tg, c, H, st, at, end);
  }

  /** The code of any well-formed expression passes the check of its heights, from
      any height it is entered with, if what follows it has one operand more. */
  lemma {:induction false} TypeExpr(e: Expr, ctx: Ctx, tg: Targets, c: CodeObj, H: Map, st: Stack, at: nat)
    requires Here(H, ctx, tg, st) && Emitted(e, ctx, tg, c, at) && WellFormed(e, ctx)
    requires Agrees(H, e, ctx, st, at) && H(at + Len(e, ctx)) == Some(Up(st, 1))
    ensures Checked(c, H, at, at + Len(e, ctx))
    decreases e, 1
  {
    if IsLeaf(e) {
      hide Here;
      TypeLeaf(e, c, H, st, at);
    } else {
      hide Here, Agrees, Checked, Emitted, WellFormed, HeightAt, Len;
      if e.Cond? || e.Semi? {
        TypeChoice(e, ctx, tg, c, H, st, at);
      } else if e.And? || e.Or? {
        TypeLogic(e, ctx, tg, c, H, st, at);
      } else if e.Loop? || e.ForEach? {
        TypeLooping(e, ctx, tg, c, H, st, at);
      } else if e.Break? || e.Continue? || e.Return? {
        TypeLeaving(e, ctx, tg, c, H, st, at);
      } else if e.Assign? || e.OpAssign? || e.MultiAssign? || e.Unpack? {
        TypeStores(e, ctx, tg, c, H, st, at);
      } else if e.Unary? || e.Binary? || e.HashAppend? || e.Member? {
        TypeOperation(e, ctx, tg, c, H, st, at);
      } else if e.Call? || e.MethodCall? {
        TypeCalls(e, ctx, tg, c, H, st, at);
      } else {
        TypeNaming(e, ctx, tg, c, H, st, at);
      }
    }
  }
}
