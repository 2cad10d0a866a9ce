/** The machine running emitted code does what the semantics says: one lemma a
    construct, by induction over fuel and syntax. */
module Correspondence {
  import opened Basics
  import opened Values
  import opened Syntax
  import opened Semantics
  import opened Machine
  import opened Layout
  import opened Runs
  import opened Instructions
  import opened Simulation

  // ----- leaves -----

  lemma NumRuns(m: Image, s: State, n: real)
    requires s.code < |m.codes| && NumAt(m.codes[s.code], s.ip, n)
    ensures Yields(m, s, Running(Next(s, NumLen(n), s.ops + [Num(n)], s.heap)))
  {
    hide Step, Yields;
    if n == 1.0 || n == 0.0 {
      DoPush(m, s);
    } else {
      DoConst(m, s, Num(n));
    }
    StepYields(m, s);
  }

  lemma SimLeaf(p: Program, m: Image, fuel: nat, e: Expr, s: State, ctx: Ctx, tg: Targets)
    requires Ready(p, m, s, ctx, tg) && IsLeaf(e) && EmittedLeaf(e, m.codes[s.code], s.ip)
    ensures Simulates(m, s, s.ip + LeafLen(e), ctx, tg, fuel, EvalLeaf(p.host, e, s.env, s.heap))
  {
    hide Step, Yields, LiveFor, Linked, GetLocal;
    match e {
      case NumLit(n) => NumRuns(m, s, n);
      case StrLit(t) => DoName(m, s, t);
      case SymLit(t) => DoName(m, s, t);
      case Lambda(i) => DoConst(m, s, Code(i));
      case Sym(x) => DoLocal(m, s, x);
      case NilLit => DoPush(m, s);
      case _ => DoNew(m, s);
    }
    StepYields(m, s);
  }

  // ----- operators -----

  /** Evaluates a part at an inner state; see Compose. */
  lemma SimSub(p: Program, m: Image, fuel: nat, e: Expr, r: State, s: State, ctx: Ctx, tg: Targets,
               t: State, ctx1: Ctx, tg1: Targets) returns (o: Outcome)
    requires Ready(p, m, s, ctx, tg) && Ready(p, m, t, ctx1, tg1)
    requires Yields(m, r, Running(t)) && Within(s, ctx, tg, t, ctx1, tg1)
    requires WellFormed(e, ctx1) && Emitted(e, ctx1, tg1, m.codes[t.code], t.ip)
    ensures o == Eval(p, fuel, e, t.env, t.heap, ctx1)
    ensures o.Normal? ==> o.vals == [Top(o)] && Yields(m, r, Running(After(t, t.ip + Len(e, ctx1), o)))
    ensures !o.Normal? ==> Leaves(m, r, t, ctx1, tg1, fuel, o)
    ensures !o.Normal? && Below(o, ctx) ==> Leaves(m, r, s, ctx, tg, fuel, o)
    decreases fuel, e, 5
  {
    hide Step, Yields, LiveFor, Linked, Shares, Eval, Emitted, WellFormed, Len;
    o := Eval(p, fuel, e, t.env, t.heap, ctx1);
    SimExpr(p, m, fuel, e, t, ctx1, tg1);
    Compose(m, r, s, ctx, tg, t, ctx1, tg1, t.ip + Len(e, ctx1), fuel, o);
  }

  lemma SimUnary(p: Program, m: Image, fuel: nat, e: Expr, s: State, ctx: Ctx, tg: Targets, next: nat)
    requires Ready(p, m, s, ctx, tg) && e.Unary?
    requires WellFormed(e.arg, ctx)
    requires EmittedUnary(e, ctx, tg, m.codes[s.code], s.ip)
    requires next == s.ip + (if Folds(e) then NumLen(-e.arg.n) else Len(e.arg, ctx) + 1)
    ensures Simulates(m, s, next, ctx, tg, fuel, EvalUnary(p, fuel, e, s.env, s.heap, ctx))
    decreases fuel, e, 1
  {
    hide Step, Yields, LiveFor, Linked, Shares, Eval, Emitted, WellFormed, Len;
    YieldsHere(m, s);
    if Folds(e) {
      NumRuns(m, s, -e.arg.n);
      EvalNum(p, fuel, e.arg, s.env, s.heap, ctx);
    } else {
      var o := SimSub(p, m, fuel, e.arg, s, s, ctx, tg, s, ctx, tg);
      if o.Normal? {
        var t := After(s, s.ip + Len(e.arg, ctx), o);
        DoUnary(m, t, s.ops, Top(o), e.uop);
        YieldsStep(m, s, t, Step(m, t));
      }
    }
  }

  lemma EvalNum(p: Program, fuel: nat, e: Expr, env: Env, h: Heap, ctx: Ctx)
    requires e.NumLit?
    ensures Eval(p, fuel, e, env, h, ctx) == Normal([Num(e.n)], h)
  {
  }

  lemma SimBinary(p: Program, m: Image, fuel: nat, e: Expr, s: State, ctx: Ctx, tg: Targets, next: nat)
    requires Ready(p, m, s, ctx, tg) && e.Binary?
    requires WellFormed(e.left, ctx) && WellFormed(e.right, ctx)
    requires EmittedBinary(e, ctx, tg, m.codes[s.code], s.ip)
    requires next == s.ip + Len(e.left, ctx) + Len(e.right, ctx) + 1
    ensures Simulates(m, s, next, ctx, tg, fuel, EvalBinary(p, fuel, e, s.env, s.heap, ctx))
    decreases fuel, e, 1
  {
    hide Step, Yields, LiveFor, Linked, Shares, Eval, Emitted, WellFormed, Len;
    hide ApplyBinary;
    YieldsHere(m, s);
    var o1 := SimSub(p, m, fuel, e.left, s, s, ctx, tg, s, ctx, tg);
    if o1.Normal? {
      var s1 := After(s, s.ip + Len(e.left, ctx), o1);
      var o2 := SimSub(p, m, fuel, e.right, s, s, ctx, tg, s1, ctx, tg);
      if o2.Normal? {
        var s2 := After(s1, s1.ip + Len(e.right, ctx), o2);
        assert s2.ops == s.ops + [Top(o1), Top(o2)];
        DoBinary(m, s2, s.ops, Top(o1), Top(o2), e.op);
        YieldsStep(m, s, s2, Step(m, s2));
      }
    }
  }

  lemma SimHashAppend(p: Program, m: Image, fuel: nat, e: Expr, s: State, ctx: Ctx, tg: Targets, next: nat)
    requires Ready(p, m, s, ctx, tg) && e.HashAppend?
    requires WellFormed(e.hash, ctx) && WellFormed(e.key, ctx) && WellFormed(e.val, ctx)
    requires EmittedHashAppend(e, ctx, tg, m.codes[s.code], s.ip)
    requires next == s.ip + Len(e.hash, ctx) + Len(e.key, ctx) + Len(e.val, ctx) + 1
    ensures Simulates(m, s, next, ctx, tg, fuel, EvalHashAppend(p, fuel, e, s.env, s.heap, ctx))
    decreases fuel, e, 1
  {
    hide Step, Yields, LiveFor, Linked, Shares, Eval, Emitted, WellFormed, Len;
    hide PutField;
    YieldsHere(m, s);
    var o1 := SimSub(p, m, fuel, e.hash, s, s, ctx, tg, s, ctx, tg);
    if o1.Normal? {
      var s1 := After(s, s.ip + Len(e.hash, ctx), o1);
      var o2 := SimSub(p, m, fuel, e.key, s, s, ctx, tg, s1, ctx, tg);
      if o2.Normal? {
        var s2 := After(s1, s1.ip + Len(e.key, ctx), o2);
        var o3 := SimSub(p, m, fuel, e.val, s, s, ctx, tg, s2, ctx, tg);
        if o3.Normal? {
          var s3 := After(s2, s2.ip + Len(e.val, ctx), o3);
          assert s3.ops == s.ops + [Top(o1), Top(o2), Top(o3)];
          DoHashAppend(m, s3, s.ops, Top(o1), Top(o2), Top(o3));
          YieldsStep(m, s, s3, Step(m, s3));
        }
      }
    }
  }

  lemma SimMember(p: Program, m: Image, fuel: nat, e: Expr, s: State, ctx: Ctx, tg: Targets, next: nat)
    requires Ready(p, m, s, ctx, tg) && e.Member?
    requires WellFormed(e.obj, ctx)
    requires EmittedMember(e, ctx, tg, m.codes[s.code], s.ip)
    requires next == s.ip + Len(e.obj, ctx) + 2
    ensures Simulates(m, s, next, ctx, tg, fuel, EvalMember(p, fuel, e, s.env, s.heap, ctx))
    decreases fuel, e, 1
  {
    hide Step, Yields, LiveFor, Linked, Shares, Eval, Emitted, WellFormed, Len;
    hide GetMember;
    YieldsHere(m, s);
    var o := SimSub(p, m, fuel, e.obj, s, s, ctx, tg, s, ctx, tg);
    if o.Normal? {
      var t := After(s, s.ip + Len(e.obj, ctx), o);
      DoMember(m, t, s.ops, Top(o), e.field);
      YieldsStep(m, s, t, Step(m, t));
    }
  }

  // ----- control -----

  lemma SimShort(p: Program, m: Image, fuel: nat, e: Expr, s: State, ctx: Ctx, tg: Targets, next: nat)
    requires Ready(p, m, s, ctx, tg) && (e.And? || e.Or?)
    requires WellFormed(e.left, ctx) && WellFormed(e.right, ctx)
    requires EmittedShort(e, ctx, tg, m.codes[s.code], s.ip)
    requires next == s.ip + Len(e.left, ctx) + 3 + Len(e.right, ctx)
    ensures Simulates(m, s, next, ctx, tg, fuel, EvalShort(p, fuel, e, s.env, s.heap, ctx))
    decreases fuel, e, 1
  {
    hide Step, Yields, LiveFor, Linked, Shares, Eval, Emitted, WellFormed, Len;
    hide Boolify;
    YieldsHere(m, s);
    var o := SimSub(p, m, fuel, e.left, s, s, ctx, tg, s, ctx, tg);
    if o.Normal? {
      var t := After(s, s.ip + Len(e.left, ctx), o);
      DoJumpIf(m, t, if e.And? then OP_JIFNOT else OP_JIFTRUE, s.ops, Top(o), next);
      YieldsStep(m, s, t, Step(m, t));
      var b := Boolify(p.host, Top(o));
      if b.Ok? && b.value != e.Or? {
        var t1 := t.(ip := t.ip + 2);
        DoPop(m, t1, s.ops, Top(o));
        var t2 := s.(ip := t1.ip + 1, heap := o.heap);
        YieldsStep(m, s, t1, Running(t2));
        var o2 := SimSub(p, m, fuel, e.right, s, s, ctx, tg, t2, ctx, tg);
        assert EvalShort(p, fuel, e, s.env, s.heap, ctx) == o2;
      }
    }
  }

  lemma SimCond(p: Program, m: Image, fuel: nat, e: Expr, s: State, ctx: Ctx, tg: Targets, next: nat)
    requires Ready(p, m, s, ctx, tg) && e.Cond?
    requires WellFormed(e.test, ctx) && WellFormed(e.thn, ctx) && WellFormed(e.els, ctx)
    requires EmittedCond(e, ctx, tg, m.codes[s.code], s.ip)
    requires next == s.ip + Len(e.test, ctx) + Len(e.thn, ctx) + Len(e.els, ctx) + 4
    ensures Simulates(m, s, next, ctx, tg, fuel, EvalCond(p, fuel, e, s.env, s.heap, ctx))
    decreases fuel, e, 1
  {
    hide Step, Yields, LiveFor, Linked, Shares, Eval, Emitted, WellFormed, Len;
    hide Boolify;
    YieldsHere(m, s);
    var o := SimSub(p, m, fuel, e.test, s, s, ctx, tg, s, ctx, tg);
    if o.Normal? {
      var t := After(s, s.ip + Len(e.test, ctx), o);
      var b0 := t.ip + 4 + Len(e.thn, ctx);
      DoJumpIf(m, t, OP_JIFNOTPOP, s.ops, Top(o), b0);
      YieldsStep(m, s, t, Step(m, t));
      if Boolify(p.host, Top(o)) == Ok(true) {
        var t1 := t.(ip := t.ip + 2, ops := s.ops);
        var o1 := SimSub(p, m, fuel, e.thn, s, s, ctx, tg, t1, ctx, tg);
        if o1.Normal? {
          var t2 := After(t1, t1.ip + Len(e.thn, ctx), o1);
          DoJump(m, t2, next);
          YieldsStep(m, s, t2, Step(m, t2));
        }
      } else if Boolify(p.host, Top(o)) == Ok(false) {
        var t1 := t.(ip := b0, ops := s.ops);
        var _ := SimSub(p, m, fuel, e.els, s, s, ctx, tg, t1, ctx, tg);
      }
    }
  }

  lemma SimSemi(p: Program, m: Image, fuel: nat, e: Expr, s: State, ctx: Ctx, tg: Targets, next: nat)
    requires Ready(p, m, s, ctx, tg) && e.Semi?
    requires WellFormed(e.first, ctx) && WellFormed(e.rest, ctx)
    requires EmittedSemi(e, ctx, tg, m.codes[s.code], s.ip)
    requires next == s.ip + Len(e.first, ctx) + 1 + Len(e.rest, ctx)
    ensures Simulates(m, s, next, ctx, tg, fuel, EvalSemi(p, fuel, e, s.env, s.heap, ctx))
    decreases fuel, e, 1
  {
    hide Step, Yields, LiveFor, Linked, Shares, Eval, Emitted, WellFormed, Len;
    YieldsHere(m, s);
    var o := SimSub(p, m, fuel, e.first, s, s, ctx, tg, s, ctx, tg);
    if o.Normal? {
      var t := After(s, s.ip + Len(e.first, ctx), o);
      DoPop(m, t, s.ops, Top(o));
      var t1 := Next(t, 1, s.ops, o.heap);
      YieldsStep(m, s, t, Running(t1));
      var _ := SimSub(p, m, fuel, e.rest, s, s, ctx, tg, t1, ctx, tg);
    }
  }

  // ----- lists and assignments -----

  lemma SimList(p: Program, m: Image, fuel: nat, es: Exprs, s: State, ctx: Ctx, tg: Targets)
    requires Ready(p, m, s, ctx, tg) && WellFormedList(es, ctx) && EmittedList(es, ctx, tg, m.codes[s.code], s.ip)
    ensures Simulates(m, s, s.ip + LenList(es, ctx), ctx, tg, fuel, EvalList(p, fuel, es, s.env, s.heap, ctx))
    decreases fuel, es, 0
  {
    hide Step, Yields, LiveFor, Linked, Shares, Eval, Emitted, WellFormed, Len;
    YieldsHere(m, s);
    match es
    case NoExprs => assert After(s, s.ip, Normal([], s.heap)) == s;
    case More(e, rest) =>
      var o1 := SimSub(p, m, fuel, e, s, s, ctx, tg, s, ctx, tg);
      if o1.Normal? {
        var t := After(s, s.ip + Len(e, ctx), o1);
        SimList(p, m, fuel, rest, t, ctx, tg);
        var o2 := EvalList(p, fuel, rest, t.env, t.heap, ctx);
        Compose(m, s, s, ctx, tg, t, ctx, tg, t.ip + LenList(rest, ctx), fuel, o2);
        assert o2.Normal? ==> t.ops + o2.vals == s.ops + (o1.vals + o2.vals);
      }
  }

  lemma SimReverse(p: Program, m: Image, fuel: nat, es: Exprs, s: State, ctx: Ctx, tg: Targets)
    requires Ready(p, m, s, ctx, tg) && WellFormedList(es, ctx) && EmittedReverse(es, ctx, tg, m.codes[s.code], s.ip)
    ensures Simulates(m, s, s.ip + LenList(es, ctx), ctx, tg, fuel, EvalReverse(p, fuel, es, s.env, s.heap, ctx))
    decreases fuel, es, 0
  {
    hide Step, Yields, LiveFor, Linked, Shares, Eval, Emitted, WellFormed, Len;
    YieldsHere(m, s);
    match es
    case NoExprs => assert After(s, s.ip, Normal([], s.heap)) == s;
    case More(e, rest) =>
      SimReverse(p, m, fuel, rest, s, ctx, tg);
      var o1 := EvalReverse(p, fuel, rest, s.env, s.heap, ctx);
      if o1.Normal? {
        var t := After(s, s.ip + LenList(rest, ctx), o1);
        var o2 := SimSub(p, m, fuel, e, s, s, ctx, tg, t, ctx, tg);
        assert o2.Normal? ==> t.ops + o2.vals == s.ops + (o1.vals + o2.vals);
      }
  }

  lemma SimTarget(p: Program, m: Image, fuel: nat, lv: LValue, s: State, ctx: Ctx, tg: Targets)
    requires Ready(p, m, s, ctx, tg) && WellFormedLV(lv, ctx) && EmittedTarget(lv, ctx, tg, m.codes[s.code], s.ip)
    ensures Simulates(m, s, s.ip + LenTarget(lv, ctx), ctx, tg, fuel, EvalTarget(p, fuel, lv, s.env, s.heap, ctx))
    decreases fuel, lv, 0
  {
    hide Step, Yields, LiveFor, Linked, Shares, Eval, Emitted, WellFormed, Len;
    YieldsHere(m, s);
    match lv
    case LSym(x) =>
      DoName(m, s, x);
      StepYields(m, s);
    case LVar(x) =>
      DoName(m, s, x);
      StepYields(m, s);
    case LMember(obj, f) =>
      var o := SimSub(p, m, fuel, obj, s, s, ctx, tg, s, ctx, tg);
      if o.Normal? {
        var t := After(s, s.ip + Len(obj, ctx), o);
        DoName(m, t, f);
        YieldsStep(m, s, t, Step(m, t));
        assert s.ops + o.vals + [Name(s.env.names, f)] == s.ops + (o.vals + [Name(s.env.names, f)]);
      }
    case LIndex(box, key) =>
      var o1 := SimSub(p, m, fuel, box, s, s, ctx, tg, s, ctx, tg);
      if o1.Normal? {
        var t := After(s, s.ip + Len(box, ctx), o1);
        var o2 := SimSub(p, m, fuel, key, s, s, ctx, tg, t, ctx, tg);
        assert o2.Normal? ==> t.ops + o2.vals == s.ops + (o1.vals + o2.vals);
      }
  }

  lemma TargetShape(p: Program, fuel: nat, lv: LValue, env: Env, h: Heap, ctx: Ctx)
    ensures var o := EvalTarget(p, fuel, lv, env, h, ctx); o.Normal? ==> IsTarget(env.names, lv, o.vals)
  {
    hide Eval;
  }

  /** A store into one target, with the value on top of the stack before and
      after. */
  lemma SimStore(p: Program, m: Image, fuel: nat, lv: LValue, v: Value, base: seq<Value>,
                 r: State, s: State, ctx: Ctx, tg: Targets, t: State, ctx1: Ctx, tg1: Targets) returns (o: Outcome)
    requires Ready(p, m, s, ctx, tg) && Ready(p, m, t, ctx1, tg1)
    requires Yields(m, r, Running(t)) && Within(s, ctx, tg, t, ctx1, tg1) && t.ops == base + [v]
    requires WellFormedLV(lv, ctx1) && EmittedStore(lv, ctx1, tg1, m.codes[t.code], t.ip)
    ensures o == EvalStore(p, fuel, lv, v, t.env, t.heap, ctx1)
    ensures o.Normal? ==>
      o.vals == [v] && Yields(m, r, Running(t.(ip := t.ip + LenTarget(lv, ctx1) + 1, heap := o.heap)))
    ensures !o.Normal? ==> Inner(o, ctx1)
    ensures !o.Normal? && Below(o, ctx) ==> Leaves(m, r, s, ctx, tg, fuel, o)
    decreases fuel, lv, 1
  {
    hide Step, Yields, LiveFor, Linked, Shares, Eval, Emitted, WellFormed, Len;
    hide Store, EmittedTarget;
    o := EvalStore(p, fuel, lv, v, t.env, t.heap, ctx1);
    SimTarget(p, m, fuel, lv, t, ctx1, tg1);
    TargetShape(p, fuel, lv, t.env, t.heap, ctx1);
    var o1 := EvalTarget(p, fuel, lv, t.env, t.heap, ctx1);
    Compose(m, r, s, ctx, tg, t, ctx1, tg1, t.ip + LenTarget(lv, ctx1), fuel, o1);
    if o1.Normal? {
      var t1 := After(t, t.ip + LenTarget(lv, ctx1), o1);
      DoStore(m, t1, base, v, lv, o1.vals);
      YieldsStep(m, r, t1, Step(m, t1));
    }
  }

  /** Stores into several targets: each takes the top value, all but the last
      pop it. */
  lemma SimAssign(p: Program, m: Image, fuel: nat, lvs: LValues, vals: seq<Value>, base: seq<Value>,
                  s: State, ctx: Ctx, tg: Targets, t: State) returns (o: Outcome)
    requires Ready(p, m, s, ctx, tg) && Ready(p, m, t, ctx, tg)
    requires Yields(m, s, Running(t)) && Within(s, ctx, tg, t, ctx, tg) && t.ops == base + vals && s.ops <= base
    requires |vals| == CountLV(lvs)
    requires WellFormedLVs(lvs, ctx) && EmittedTargets(lvs, ctx, tg, m.codes[t.code], t.ip)
    ensures o == EvalAssign(p, fuel, lvs, vals, t.env, t.heap, ctx)
    ensures o.Normal? ==>
              Yields(m, s, Running(t.(ip := t.ip + LenTargets(lvs, ctx), ops := base + o.vals, heap := o.heap)))
    ensures !o.Normal? ==> Leaves(m, s, s, ctx, tg, fuel, o)
    decreases fuel, lvs, 0
  {
    hide Step, Yields, LiveFor, Linked, Shares, Eval, Emitted, WellFormed, Len;
    hide EvalStore, EmittedTarget;
    var n := |vals|;
    var v := vals[n - 1];
    assert base + vals == base + vals[..n - 1] + [v];
    o := EvalAssign(p, fuel, lvs, vals, t.env, t.heap, ctx);
    var o1 := SimStore(p, m, fuel, lvs.lv, v, base + vals[..n - 1], s, s, ctx, tg, t, ctx, tg);
    if lvs.OneLV? {
      assert vals == [v];
    } else if o1.Normal? {
      var t1 := t.(ip := t.ip + LenTarget(lvs.lv, ctx) + 1, heap := o1.heap);
      DoPop(m, t1, base + vals[..n - 1], v);
      var t2 := Next(t1, 1, base + vals[..n - 1], o1.heap);
      YieldsStep(m, s, t1, Running(t2));
      var _ := SimAssign(p, m, fuel, lvs.rest, vals[..n - 1], base, s, ctx, tg, t2);
    }
  }

  lemma SimPlainAssign(p: Program, m: Image, fuel: nat, e: Expr, s: State, ctx: Ctx, tg: Targets, next: nat)
    requires Ready(p, m, s, ctx, tg) && e.Assign?
    requires WellFormedLV(e.lv, ctx) && WellFormed(e.rhs, ctx)
    requires EmittedAssign(e, ctx, tg, m.codes[s.code], s.ip)
    requires next == s.ip + Len(e.rhs, ctx) + LenTarget(e.lv, ctx) + 1
    ensures Simulates(m, s, next, ctx, tg, fuel, EvalPlainAssign(p, fuel, e, s.env, s.heap, ctx))
    decreases fuel, e, 1
  {
    hide Step, Yields, LiveFor, Linked, Shares, Eval, Emitted, WellFormed, Len;
    hide EvalStore, EmittedStore;
    YieldsHere(m, s);
    var o := SimSub(p, m, fuel, e.rhs, s, s, ctx, tg, s, ctx, tg);
    if o.Normal? {
      var t := After(s, s.ip + Len(e.rhs, ctx), o);
      var _ := SimStore(p, m, fuel, e.lv, Top(o), s.ops, s, s, ctx, tg, t, ctx, tg);
    }
  }

  lemma SimMultiAssign(p: Program, m: Image, fuel: nat, e: Expr, s: State, ctx: Ctx, tg: Targets, next: nat)
    requires Ready(p, m, s, ctx, tg) && e.MultiAssign?
    requires WellFormedLVs(e.lvs, ctx) && WellFormedList(e.rvs, ctx) && CountLV(e.lvs) == Count(e.rvs)
    requires EmittedMultiAssign(e, ctx, tg, m.codes[s.code], s.ip)
    requires next == s.ip + LenList(e.rvs, ctx) + LenTargets(e.lvs, ctx)
    ensures Simulates(m, s, next, ctx, tg, fuel, EvalMultiAssign(p, fuel, e, s.env, s.heap, ctx))
    decreases fuel, e, 1
  {
    hide Step, Yields, LiveFor, Linked, Shares, Eval, Emitted, WellFormed, Len;
    hide EvalAssign, EmittedTargets, EmittedReverse, EvalReverse;
    YieldsHere(m, s);
    SimReverse(p, m, fuel, e.rvs, s, ctx, tg);
    var o := EvalReverse(p, fuel, e.rvs, s.env, s.heap, ctx);
    if o.Normal? {
      var t := After(s, s.ip + LenList(e.rvs, ctx), o);
      var _ := SimAssign(p, m, fuel, e.lvs, o.vals, s.ops, s, ctx, tg, t);
    }
  }

  lemma SimUnpack(p: Program, m: Image, fuel: nat, e: Expr, s: State, ctx: Ctx, tg: Targets, next: nat)
    requires Ready(p, m, s, ctx, tg) && e.Unpack?
    requires WellFormedLVs(e.lvs, ctx) && WellFormed(e.rhs, ctx)
    requires EmittedUnpack(e, ctx, tg, m.codes[s.code], s.ip)
    requires next == s.ip + Len(e.rhs, ctx) + 2 + LenTargets(e.lvs, ctx)
    ensures Simulates(m, s, next, ctx, tg, fuel, EvalUnpack(p, fuel, e, s.env, s.heap, ctx))
    decreases fuel, e, 1
  {
    hide Step, Yields, LiveFor, Linked, Shares, Eval, Emitted, WellFormed, Len;
    hide EvalAssign, EmittedTargets, UnpackVec;
    YieldsHere(m, s);
    var o := SimSub(p, m, fuel, e.rhs, s, s, ctx, tg, s, ctx, tg);
    if o.Normal? {
      var t := After(s, s.ip + Len(e.rhs, ctx), o);
      var n := CountLV(e.lvs);
      DoUnpack(m, t, s.ops, Top(o), n);
      YieldsStep(m, s, t, Step(m, t));
      if UnpackVec(t.heap, Top(o), n).Ok? {
        var vs := UnpackVec(t.heap, Top(o), n).value;
        var _ := SimAssign(p, m, fuel, e.lvs, vs, s.ops, s, ctx, tg, Next(t, 2, s.ops + vs, t.heap));
      }
    }
  }

  /** Reading a target above its operands. */
  lemma LoadRuns(m: Image, r: State, t: State, lv: LValue, base: seq<Value>, at: seq<Value>)
    requires Yields(m, r, Running(t)) && t.code < |m.codes| && LoadAt(lv, m.codes[t.code], t.ip)
    requires t.ops == base + at && IsTarget(t.env.names, lv, at) && Shares(m.codes[t.code], t.env.names)
    ensures Yields(m, r, NextRes(t, LoadLen(lv), t.ops, Load(lv, t.env, t.heap, at, m.host)))
  {
    hide Step, Yields, GetLocal, GetMember, ContainerGet;
    match lv
    case LSym(x) =>
      DoLocal(m, t, x);
      YieldsStep(m, r, t, Step(m, t));
    case LVar(x) =>
      DoLocal(m, t, x);
      YieldsStep(m, r, t, Step(m, t));
    case LMember(_, f) =>
      assert t.ops == base + [at[0], at[1]];
      DoDup2(m, t, base, at[0], at[1]);
      var t1 := Next(t, 1, base + [at[0], at[1], at[0], at[1]], t.heap);
      YieldsStep(m, r, t, Running(t1));
      assert t1.ops == t.ops + [at[0]] + [at[1]];
      DoPop(m, t1, t.ops + [at[0]], at[1]);
      var t2 := Next(t1, 1, t.ops + [at[0]], t.heap);
      YieldsStep(m, r, t1, Running(t2));
      DoMember(m, t2, t.ops, at[0], f);
      YieldsStep(m, r, t2, Step(m, t2));
    case LIndex(_, _) =>
      assert t.ops == base + [at[0], at[1]];
      DoDup2(m, t, base, at[0], at[1]);
      var t1 := Next(t, 1, base + [at[0], at[1], at[0], at[1]], t.heap);
      YieldsStep(m, r, t, Running(t1));
      assert t1.ops == t.ops + [at[0], at[1]];
      DoBinary(m, t1, t.ops, at[0], at[1], Extract);
      YieldsStep(m, r, t1, Step(m, t1));
  }

  /** The end of `lv op= e`: compute, move the result below the operands, store. */
  lemma UpdateRuns(m: Image, r: State, t: State, op: BinOp, lv: LValue, base: seq<Value>, at: seq<Value>, x: Value,
      y: Value)
    requires Yields(m, r, Running(t)) && t.code < |m.codes|
    requires Op(m.codes[t.code], t.ip, BinaryCode(op)) && Op(m.codes[t.code], t.ip + 2, StoreCode(lv))
    requires Op(m.codes[t.code], t.ip + 1, if lv.LSym? || lv.LVar? then OP_XCHG else OP_XCHG2)
    requires t.ops == base + at + [x, y] && IsTarget(t.env.names, lv, at)
    ensures Yields(m, r,
                   match ApplyBinary(m.host, op, t.heap, x, y)
                   case Err(e) => Failed(e)
                   case Ok((v, h)) =>
                     match Store(lv, t.env, h, at, v, m.host)
                     case Err(e) => Failed(e)
                     case Ok(h1) => Running(Next(t, 3, base + [v], h1)))
  {
    hide Step, Yields, ApplyBinary, Store;
    DoBinary(m, t, base + at, x, y, op);
    YieldsStep(m, r, t, Step(m, t));
    match ApplyBinary(m.host, op, t.heap, x, y)
    case Err(_) =>
    case Ok((v, h)) =>
      var t1 := Next(t, 1, base + at + [v], h);
      if lv.LSym? || lv.LVar? {
        assert t1.ops == base + [at[0], v];
        DoXchg(m, t1, base, at[0], v);
        assert base + [v, at[0]] == base + [v] + at;
      } else {
        assert t1.ops == base + [at[0], at[1], v];
        DoXchg2(m, t1, base, at[0], at[1], v);
        assert base + [v, at[0], at[1]] == base + [v] + at;
      }
      var t2 := Next(t1, 1, base + [v] + at, h);
      YieldsStep(m, r, t1, Running(t2));
      DoStore(m, t2, base, v, lv, at);
      YieldsStep(m, r, t2, Step(m, t2));
  }

  lemma SimOpAssign(p: Program, m: Image, fuel: nat, e: Expr, s: State, ctx: Ctx, tg: Targets, next: nat)
    requires Ready(p, m, s, ctx, tg) && e.OpAssign?
    requires WellFormedLV(e.lv, ctx) && WellFormed(e.rhs, ctx)
    requires EmittedOpAssign(e, ctx, tg, m.codes[s.code], s.ip)
    requires next == s.ip + LenTarget(e.lv, ctx) + LoadLen(e.lv) + Len(e.rhs, ctx) + 3
    ensures Simulates(m, s, next, ctx, tg, fuel, EvalOpAssign(p, fuel, e, s.env, s.heap, ctx))
    decreases fuel, e, 1
  {
    hide Step, Yields, LiveFor, Linked, Shares, Eval, Emitted, WellFormed, Len;
    hide Store, Load, ApplyBinary, EvalTarget, EmittedTarget, LoadAt;
    YieldsHere(m, s);
    SimTarget(p, m, fuel, e.lv, s, ctx, tg);
    TargetShape(p, fuel, e.lv, s.env, s.heap, ctx);
    var o1 := EvalTarget(p, fuel, e.lv, s.env, s.heap, ctx);
    if o1.Normal? {
      var t := After(s, s.ip + LenTarget(e.lv, ctx), o1);
      LoadRuns(m, s, t, e.lv, s.ops, o1.vals);
      var x := Load(e.lv, s.env, o1.heap, o1.vals, p.host);
      if x.Ok? {
        var t1 := Next(t, LoadLen(e.lv), t.ops + [x.value], o1.heap);
        var o2 := SimSub(p, m, fuel, e.rhs, s, s, ctx, tg, t1, ctx, tg);
        if o2.Normal? {
          var t2 := After(t1, t1.ip + Len(e.rhs, ctx), o2);
          assert t2.ops == s.ops + o1.vals + [x.value, Top(o2)];
          UpdateRuns(m, s, t2, e.op, e.lv, s.ops, o1.vals, x.value, Top(o2));
        }
      }
    }
  }

  // ----- leaving loops and functions -----

  /** Breaking out of `n` loops restores the height of the outermost of them. */
  lemma {:induction false} UnwindRuns(m: Image, s: State, d: nat, n: nat)
    requires s.code < |m.codes| && Anchored(s, d) && 0 < n <= d && Unwind(m.codes[s.code], s.ip, n)
    ensures var k := |s.marks| - n;
            Yields(m, s, Running(s.(ip := s.ip + n, ops := s.ops[..s.marks[k]], marks := s.marks[..k + 1])))
    decreases n
  {
    hide Step, Yields;
    var last := |s.marks| - 1;
    assert s.marks == s.marks[..last] + [s.marks[last]];
    DoBreak(m, s, s.marks[..last], s.marks[last]);
    StepYields(m, s);
    if n == 1 {
      assert s.marks[..last + 1] == s.marks;
    } else {
      assert m.codes[s.code].words[s.ip] == OP_BREAK2;
      var t := s.(ip := s.ip + 1, ops := s.ops[..s.marks[last]], marks := s.marks[..last]);
      UnwindRuns(m, t, d - 1, n - 1);
      var k := |s.marks| - n;
      assert t.ops[..s.marks[k]] == s.ops[..s.marks[k]];
      assert t.marks[..k + 1] == s.marks[..k + 1];
      YieldsThen(m, s, t, Running(t.(ip := t.ip + (n - 1), ops := t.ops[..s.marks[k]], marks := t.marks[..k + 1])));
    }
  }

  lemma SimBreak(m: Image, fuel: nat, e: Expr, s: State, ctx: Ctx, tg: Targets, o: Outcome)
    requires s.code < |m.codes| && |tg| == |ctx| && Anchored(s, |ctx|) && e.Break? && Jumps(ctx, e.target)
    requires EmittedBreak(e, ctx, tg, m.codes[s.code], s.ip)
    requires o == Brk(Resolve(ctx, e.target).value, s.heap)
    ensures Leaves(m, s, s, ctx, tg, fuel, o)
  {
    hide Step, Yields, LiveFor, Resolve;
    var d, j := |ctx|, o.loop;
    UnwindRuns(m, s, d, d - j);
    var t := Unwound(s, d, j, s.ip + (d - j), [], s.heap);
    assert t.ops == s.ops[..s.marks[|s.marks| - d + j]];
    DoPush(m, t);
    var t1 := Next(t, 1, t.ops + [End], s.heap);
    YieldsStep(m, s, t, Running(t1));
    DoJump(m, t1, tg[j].breakIP);
    YieldsStep(m, s, t1, Step(m, t1));
  }

  lemma SimContinue(m: Image, fuel: nat, e: Expr, s: State, ctx: Ctx, tg: Targets, o: Outcome)
    requires s.code < |m.codes| && |tg| == |ctx| && Anchored(s, |ctx|) && e.Continue? && Jumps(ctx, e.target)
    requires EmittedContinue(e, ctx, tg, m.codes[s.code], s.ip)
    requires o == Cont(Resolve(ctx, e.target).value, s.heap)
    ensures Leaves(m, s, s, ctx, tg, fuel, o)
  {
    hide Step, Yields, LiveFor, Resolve;
    var d, j := |ctx|, o.loop;
    UnwindRuns(m, s, d, d - j);
    var t := Unwound(s, d, j, s.ip + (d - j), [], s.heap);
    assert t.ops == s.ops[..s.marks[|s.marks| - d + j]];
    DoJump(m, t, tg[j].contIP);
    YieldsStep(m, s, t, Step(m, t));
  }

  lemma {:induction false} UnmarkRuns(m: Image, s: State, n: nat)
    requires s.code < |m.codes| && n <= |s.marks| && OpRun(m.codes[s.code], s.ip, OP_UNMARK, n)
    ensures Yields(m, s, Running(s.(ip := s.ip + n, marks := s.marks[..|s.marks| - n])))
    decreases n
  {
    hide Step, Yields;
    if n == 0 {
      YieldsHere(m, s);
      assert s.marks[..|s.marks|] == s.marks;
    } else {
      var last := |s.marks| - 1;
      assert m.codes[s.code].words[s.ip] == OP_UNMARK;
      DoUnmark(m, s, s.marks[..last], s.marks[last]);
      StepYields(m, s);
      var t := s.(ip := s.ip + 1, marks := s.marks[..last]);
      UnmarkRuns(m, t, n - 1);
      assert t.marks[..|t.marks| - (n - 1)] == s.marks[..|s.marks| - n];
      YieldsThen(m, s, t, Running(s.(ip := s.ip + n, marks := s.marks[..|s.marks| - n])));
    }
  }

  /** The marks of the enclosing loops are dropped before the return. */
  lemma SimReturn(p: Program, m: Image, fuel: nat, e: Expr, s: State, ctx: Ctx, tg: Targets, next: nat)
    requires Ready(p, m, s, ctx, tg) && e.Return?
    requires WellFormed(e.arg, ctx)
    requires EmittedReturn(e, ctx, tg, m.codes[s.code], s.ip)
    requires next == s.ip + Len(e.arg, ctx) + |ctx| + 1
    ensures Simulates(m, s, next, ctx, tg, fuel, EvalReturn(p, fuel, e, s.env, s.heap, ctx))
    decreases fuel, e, 1
  {
    hide Step, Yields, LiveFor, Linked, Shares, Eval, Emitted, WellFormed, Len;
    YieldsHere(m, s);
    var o := SimSub(p, m, fuel, e.arg, s, s, ctx, tg, s, ctx, tg);
    if o.Normal? {
      var t := After(s, s.ip + Len(e.arg, ctx), o);
      UnmarkRuns(m, t, |ctx|);
      var t1 := t.(ip := t.ip + |ctx|, marks := t.marks[..|t.marks| - |ctx|]);
      YieldsThen(m, s, t, Running(t1));
      DoReturn(m, t1, Top(o));
      assert t1.ops[..s.bp] == s.ops[..s.bp];
      YieldsStep(m, s, t1, Step(m, t1));
    }
  }

  // ----- calls -----

  /** The run of a function body in a frame of its own: it comes to its return with one
      value pushed, or leaves by a return, an error or not at all. */
  lemma SimCallee(p: Program, m: Image, fuel: nat, b: State)
    requires m.host == p.host && m.params == p.params && Linked(p, m) && b.code < |p.bodies|
    requires b.env.names == p.params[b.code].names && b.ip == 0 && b.bp == |b.ops|
    ensures var o, end := Eval(p, fuel, p.bodies[b.code], b.env, b.heap, []), Len(p.bodies[b.code], []);
            && !o.Brk? && !o.Cont?
            && (o.Normal? ==> Yields(m, b, Running(After(b, end, o))) && AtOp(m, After(b, end, o), OP_RETURN))
            && (o.Ret? ==> Yields(m, b, Returned(b, b.marks, o.val, o.heap)))
            && (o.Fail? ==> Yields(m, b, Failed(o.error)))
            && (o.Timeout? ==> LiveFor(m, b, fuel))
    decreases fuel, p.bodies[b.code], 5
  {
    hide Step, Yields, LiveFor, Eval, Emitted, WellFormed, Len;
    var body := p.bodies[b.code];
    assert LinkedBody(body, m.codes[b.code]);
    assert b.marks[..|b.marks|] == b.marks;
    SimExpr(p, m, fuel, body, b, [], []);
  }

  /** A call from the state `t` whose next step enters the callee. */
  lemma SimInvoke(p: Program, m: Image, fuel: nat, call: Expr, res: Res<Entry>, r: State, t: State, n: nat,
      base: seq<Value>)
    requires m.host == p.host && m.params == p.params && Linked(p, m)
    requires Yields(m, r, Running(t)) && Step(m, t) == Called(t, n, base, res)
    requires res.Ok? ==> res.value.code < |p.params| && res.value.env.names == p.params[res.value.code].names
    ensures var o := Invoke(p, fuel, call, res);
            && (o.Normal? ==> Yields(m, r, Running(t.(ip := t.ip + n, ops := base + o.vals, heap := o.heap))))
            && (o.Fail? ==> Yields(m, r, Failed(o.error)))
            && (o.Timeout? ==> LiveFor(m, r, fuel))
            && (o.Normal? || o.Fail? || o.Timeout?)
    decreases fuel, call, 0
  {
    hide Step, Yields, LiveFor, Eval, Emitted, WellFormed, Len, LinkedBody, AtOp;
    if res.Err? {
      YieldsStep(m, r, t, Step(m, t));
    } else if fuel == 0 {
      LiveNow(m, r);
    } else {
      var en := res.value;
      var b := State(0, en.code, en.env, |base|, t.callers + [Frame(t.ip + n, t.code, t.env, t.bp)],
                     base, t.marks, en.heap);
      var body := p.bodies[en.code];
      SimCallee(p, m, fuel - 1, b);
      var o := Eval(p, fuel - 1, body, b.env, b.heap, []);
      YieldsStep(m, r, t, Running(b));
      match o
      case Timeout => LiveAfterStep(m, r, t, b, fuel - 1);
      case Normal(_, _) =>
        var b1 := After(b, Len(body, []), o);
        YieldsThen(m, r, b, Running(b1));
        assert o.vals == [o.vals[0]];
        ReturnsToCaller(m, r, b1, t, n, base, o.vals[0]);
      case Ret(v, h) =>
        assert b.callers[..|b.callers| - 1] == t.callers && b.ops[..b.bp] == base;
        YieldsThen(m, r, b, Returned(b, b.marks, v, h));
      case Fail(e) => YieldsThen(m, r, b, Failed(e));
      case _ =>
    }
  }

  /** A return at the end of a body goes back to the caller with the value pushed. */
  lemma ReturnsToCaller(m: Image, r: State, b: State, t: State, n: nat, base: seq<Value>, v: Value)
    requires Yields(m, r, Running(b)) && AtOp(m, b, OP_RETURN) && b.ops == base + [v] && b.bp == |base|
    requires b.marks == t.marks && b.callers == t.callers + [Frame(t.ip + n, t.code, t.env, t.bp)]
    ensures Yields(m, r, Running(t.(ip := t.ip + n, ops := base + [v], heap := b.heap)))
  {
    hide Yields;
    DoReturn(m, b, v);
    hide Step;
    assert b.callers[..|b.callers| - 1] == t.callers && b.ops[..b.bp] == base;
    YieldsStep(m, r, b, Step(m, b));
  }

  lemma LiveNow(m: Image, s: State)
    ensures LiveFor(m, s, 0)
  {
  }

  lemma SimCall(p: Program, m: Image, fuel: nat, e: Expr, s: State, ctx: Ctx, tg: Targets, next: nat)
    requires Ready(p, m, s, ctx, tg) && e.Call?
    requires WellFormed(e.f, ctx) && WellFormedList(e.args, ctx)
    requires EmittedCall(e, ctx, tg, m.codes[s.code], s.ip)
    requires next == s.ip + Len(e.f, ctx) + LenList(e.args, ctx) + 2
    ensures Simulates(m, s, next, ctx, tg, fuel, EvalCall(p, fuel, e, s.env, s.heap, ctx))
    decreases fuel, e, 1
  {
    hide Step, Yields, LiveFor, Linked, Shares, Eval, Emitted, WellFormed, Len;
    hide EnterCall, EvalList, EmittedList, Invoke;
    YieldsHere(m, s);
    var o1 := SimSub(p, m, fuel, e.f, s, s, ctx, tg, s, ctx, tg);
    if o1.Normal? {
      var t := After(s, s.ip + Len(e.f, ctx), o1);
      SimList(p, m, fuel, e.args, t, ctx, tg);
      var o2 := EvalList(p, fuel, e.args, t.env, t.heap, ctx);
      Compose(m, s, s, ctx, tg, t, ctx, tg, t.ip + LenList(e.args, ctx), fuel, o2);
      if o2.Normal? {
        var t1 := After(t, t.ip + LenList(e.args, ctx), o2);
        DoCall(m, t1, s.ops, Top(o1), o2.vals);
        SimInvoke(p, m, fuel, e, EnterCall(p.params, t1.heap, Top(o1), None, o2.vals), s, t1, 2, s.ops);
      }
    }
  }

  /** The receiver stays on the stack below the method found in it. */
  lemma MethodRuns(p: Program, m: Image, fuel: nat, obj: Expr, field: string, s: State, ctx: Ctx,
      tg: Targets) returns (o: Outcome)
    requires Ready(p, m, s, ctx, tg) && WellFormed(obj, ctx)
    requires EmittedMethod(obj, field, ctx, tg, m.codes[s.code], s.ip)
    ensures o == Eval(p, fuel, obj, s.env, s.heap, ctx)
    ensures !o.Normal? ==> Leaves(m, s, s, ctx, tg, fuel, o)
    ensures o.Normal? ==>
              var t := s.(ip := s.ip + Len(obj, ctx) + 3, heap := o.heap);
              Yields(m, s, NextRes(t, 0, s.ops + [Top(o)], GetMember(o.heap, Top(o), field)))
    decreases fuel, obj, 6
  {
    hide Step, Yields, LiveFor, Linked, Shares, Eval, Emitted, WellFormed, Len;
    hide GetMember;
    YieldsHere(m, s);
    o := SimSub(p, m, fuel, obj, s, s, ctx, tg, s, ctx, tg);
    if o.Normal? {
      var t := After(s, s.ip + Len(obj, ctx), o);
      DoDup(m, t, s.ops, Top(o));
      var t1 := Next(t, 1, s.ops + [Top(o), Top(o)], o.heap);
      YieldsStep(m, s, t, Running(t1));
      assert t1.ops == s.ops + [Top(o)] + [Top(o)];
      DoMember(m, t1, s.ops + [Top(o)], Top(o), field);
      YieldsStep(m, s, t1, Step(m, t1));
    }
  }

  lemma SimMethodCall(p: Program, m: Image, fuel: nat, e: Expr, s: State, ctx: Ctx, tg: Targets, next: nat)
    requires Ready(p, m, s, ctx, tg) && e.MethodCall?
    requires WellFormed(e.obj, ctx) && WellFormedList(e.args, ctx)
    requires EmittedMethodCall(e, ctx, tg, m.codes[s.code], s.ip)
    requires next == s.ip + Len(e.obj, ctx) + 3 + LenList(e.args, ctx) + 2
    ensures Simulates(m, s, next, ctx, tg, fuel, EvalMethodCall(p, fuel, e, s.env, s.heap, ctx))
    decreases fuel, e, 1
  {
    hide Step, Yields, LiveFor, Linked, Shares, Eval, Emitted, WellFormed, Len;
    hide EnterCall, EvalList, EmittedList, EmittedMethod, Invoke, GetMember;
    var o1 := MethodRuns(p, m, fuel, e.obj, e.field, s, ctx, tg);
    if o1.Normal? && GetMember(o1.heap, Top(o1), e.field).Ok? {
      var f := GetMember(o1.heap, Top(o1), e.field).value;
      var t := s.(ip := s.ip + Len(e.obj, ctx) + 3, heap := o1.heap, ops := s.ops + [Top(o1)] + [f]);
      SimList(p, m, fuel, e.args, t, ctx, tg);
      var o2 := EvalList(p, fuel, e.args, t.env, t.heap, ctx);
      Compose(m, s, s, ctx, tg, t, ctx, tg, t.ip + LenList(e.args, ctx), fuel, o2);
      if o2.Normal? {
        var t1 := After(t, t.ip + LenList(e.args, ctx), o2);
        assert t1.ops == s.ops + [Top(o1), f] + o2.vals;
        DoMethodCall(m, t1, s.ops, Top(o1), f, o2.vals);
        SimInvoke(p, m, fuel, e, EnterCall(p.params, t1.heap, f, Some(Top(o1)), o2.vals), s, t1, 2, s.ops);
      }
    }
  }

  lemma SimNamedCall(p: Program, m: Image, fuel: nat, e: Expr, s: State, ctx: Ctx, tg: Targets, next: nat)
    requires Ready(p, m, s, ctx, tg) && e.NamedCall?
    requires WellFormed(e.f, ctx) && WellFormed(e.named, ctx)
    requires EmittedNamedCall(e, ctx, tg, m.codes[s.code], s.ip)
    requires next == s.ip + Len(e.f, ctx) + Len(e.named, ctx) + 1
    ensures Simulates(m, s, next, ctx, tg, fuel, EvalNamedCall(p, fuel, e, s.env, s.heap, ctx))
    decreases fuel, e, 1
  {
    hide Step, Yields, LiveFor, Linked, Shares, Eval, Emitted, WellFormed, Len;
    hide EnterNamed, Invoke;
    YieldsHere(m, s);
    var o1 := SimSub(p, m, fuel, e.f, s, s, ctx, tg, s, ctx, tg);
    if o1.Normal? {
      var t := After(s, s.ip + Len(e.f, ctx), o1);
      var o2 := SimSub(p, m, fuel, e.named, s, s, ctx, tg, t, ctx, tg);
      if o2.Normal? {
        var t1 := After(t, t.ip + Len(e.named, ctx), o2);
        assert t1.ops == s.ops + [Top(o1), Top(o2)];
        DoNamedCall(m, t1, s.ops, Top(o1), Top(o2));
        SimInvoke(p, m, fuel, e, EnterNamed(p.host, p.params, t1.heap, Top(o1), None, Top(o2)), s, t1, 1, s.ops);
      }
    }
  }

  lemma SimNamedMethodCall(p: Program, m: Image, fuel: nat, e: Expr, s: State, ctx: Ctx, tg: Targets, next: nat)
    requires Ready(p, m, s, ctx, tg) && e.NamedMethodCall?
    requires WellFormed(e.obj, ctx) && WellFormed(e.named, ctx)
    requires EmittedNamedMethodCall(e, ctx, tg, m.codes[s.code], s.ip)
    requires next == s.ip + Len(e.obj, ctx) + 3 + Len(e.named, ctx) + 1
    ensures Simulates(m, s, next, ctx, tg, fuel, EvalNamedMethodCall(p, fuel, e, s.env, s.heap, ctx))
    decreases fuel, e, 1
  {
    hide Step, Yields, LiveFor, Linked, Shares, Eval, Emitted, WellFormed, Len;
    hide EnterNamed, Invoke, EmittedMethod, GetMember;
    var o1 := MethodRuns(p, m, fuel, e.obj, e.field, s, ctx, tg);
    if o1.Normal? && GetMember(o1.heap, Top(o1), e.field).Ok? {
      var f := GetMember(o1.heap, Top(o1), e.field).value;
      var t := s.(ip := s.ip + Len(e.obj, ctx) + 3, heap := o1.heap, ops := s.ops + [Top(o1)] + [f]);
      var o2 := SimSub(p, m, fuel, e.named, s, s, ctx, tg, t, ctx, tg);
      if o2.Normal? {
        var t1 := After(t, t.ip + Len(e.named, ctx), o2);
        assert t1.ops == s.ops + [Top(o1), f, Top(o2)];
        DoNamedMethodCall(m, t1, s.ops, Top(o1), f, Top(o2));
        SimInvoke(p, m, fuel, e, EnterNamed(p.host, p.params, t1.heap, f, Some(Top(o1)), Top(o2)), s, t1, 1, s.ops);
      }
    }
  }

  // ----- loops -----

  /** A broken loop goes through its own exit jump. */
  lemma BreakExits(m: Image, r: State, t: State, base: seq<Value>, exit: nat, j: nat, end: nat)
    requires exit == OP_JIFNOTPOP || exit == OP_JIFEND
    requires t.code < |m.codes| && OpArg(m.codes[t.code], j, exit, end)
    requires Yields(m, r, Running(t.(ip := j, ops := base + [End])))
    ensures Yields(m, r, Running(t.(ip := end, ops := base)))
  {
    hide Step, Yields;
    var x := t.(ip := j, ops := base + [End]);
    if exit == OP_JIFEND {
      DoJumpIfEnd(m, x, base, End, end);
    } else {
      DoJumpIf(m, x, exit, base, End, end);
    }
    YieldsStep(m, r, x, Step(m, x));
  }

  /** The body of a loop, from the jump over the continue jump: it goes on at the
      update, or to the end of the loop, or leaves the loop's function or a loop
      further out. */
  lemma SimBody(p: Program, m: Image, fuel: nat, e: Expr, exit: nat, r: State, s: State, ctx: Ctx, tg: Targets,
                t: State, base: seq<Value>, top: nat, j: nat) returns (o: Outcome)
    requires Ready(p, m, s, ctx, tg) && Looping(s, t, base) && IsLoop(e)
    requires Yields(m, r, Running(t)) && (exit == OP_JIFNOTPOP || exit == OP_JIFEND)
    requires WellFormed(e.body, Inside(e, ctx)) && EmittedLoop(e, exit, ctx, tg, m.codes[s.code], top, j, t.ip)
    ensures o == Eval(p, fuel, e.body, t.env, t.heap, Inside(e, ctx))
    ensures var u0 := t.ip + 5 + Len(e.body, Inside(e, ctx));
            if o.Normal? || o == Cont(|ctx|, HeapOf(o)) then Yields(m, r, Running(t.(ip := u0, heap := HeapOf(o))))
            else if o == Brk(|ctx|, HeapOf(o)) then
              Yields(m, r, Running(t.(ip := u0 + UpdateLen(e, ctx) + 2, heap := HeapOf(o))))
            else Leaves(m, r, s, ctx, tg, fuel, o)
    decreases fuel, e, 0, 0
  {
    hide Step, Yields, LiveFor, Linked, Shares, Eval, Emitted, WellFormed, Len;
    var d := |ctx|;
    var inner := tg + [Target(j, t.ip + 2)];
    var u0 := t.ip + 5 + Len(e.body, Inside(e, ctx));
    DoJump(m, t, t.ip + 4);
    var t1 := t.(ip := t.ip + 4);
    YieldsStep(m, r, t, Running(t1));
    LoopReady(p, m, s, ctx, tg, t1, base, Scope(e.tag, true), Target(j, t.ip + 2));
    o := SimSub(p, m, fuel, e.body, r, s, ctx, tg, t1, Inside(e, ctx), inner);
    if o.Normal? {
      var t2 := After(t1, u0 - 1, o);
      DoPop(m, t2, base, Top(o));
      YieldsStep(m, r, t2, Step(m, t2));
    } else if (o.Cont? || o.Brk?) && o.loop == d {
      assert t1.ops[..|base|] == base && t1.marks[..|t1.marks|] == t1.marks;
      if o.Cont? {
        var t2 := t1.(ip := t.ip + 2, heap := o.heap);
        assert Unwound(t1, d + 1, d, t.ip + 2, [], o.heap) == t2;
        DoJump(m, t2, u0);
        YieldsStep(m, r, t2, Step(m, t2));
      } else {
        assert Unwound(t1, d + 1, d, j, [End], o.heap) == t1.(ip := j, ops := base + [End], heap := o.heap);
        BreakExits(m, r, t1.(heap := o.heap), base, exit, j, u0 + UpdateLen(e, ctx) + 2);
      }
    }
  }

  /** Past the loop: the mark goes, a nil stays. */
  lemma LoopExits(m: Image, r: State, s: State, t: State, base: seq<Value>)
    requires Looping(s, t, base) && t.code < |m.codes| && Yields(m, r, Running(t))
    requires Op(m.codes[t.code], t.ip, OP_UNMARK) && Op(m.codes[t.code], t.ip + 1, OP_PUSHNIL)
    ensures Yields(m, r, Running(s.(ip := t.ip + 2, ops := base + [Nil], heap := t.heap)))
  {
    hide Step, Yields;
    DoUnmark(m, t, s.marks, |base|);
    var t1 := t.(ip := t.ip + 1, marks := s.marks);
    YieldsStep(m, r, t, Running(t1));
    DoPush(m, t1);
    YieldsStep(m, r, t1, Step(m, t1));
  }

  /** What is known of a `while` or `for` loop and its code. */
  ghost predicate AtWhile(p: Program, m: Image, e: Expr, s: State, ctx: Ctx, tg: Targets, top: nat, next: nat) {
    && Ready(p, m, s, ctx, tg) && e.Loop?
    && WellFormed(e.test, Header(e, ctx)) && WellFormed(e.body, Inside(e, ctx))
    && (e.update.Some? ==> WellFormed(e.update.value, Inside(e, ctx)))
    && Emitted(e.test, Header(e, ctx), tg + [PENDING], m.codes[s.code], top)
    && var j := top + Len(e.test, Header(e, ctx));
    && EmittedLoop(e, OP_JIFNOTPOP, ctx, tg, m.codes[s.code], top, j, j + 2)
    && next == j + 2 + LoopLen(e, ctx)
  }

  /** A loop from its test on. */
  lemma SimLoop(p: Program, m: Image, fuel: nat, e: Expr, s: State, ctx: Ctx, tg: Targets, t: State, next: nat)
    requires AtWhile(p, m, e, s, ctx, tg, t.ip, next) && Looping(s, t, s.ops)
    ensures Ends(m, t, s, next, ctx, tg, fuel, EvalLoop(p, fuel, e, t.env, t.heap, ctx))
    decreases fuel, e, 1
  {
    hide Step, Yields, LiveFor, Linked, Shares, Eval, Emitted, WellFormed, Len;
    hide Boolify, EvalUpdate;
    if fuel == 0 {
      LiveNow(m, t);
    } else {
      var hdr, th := Header(e, ctx), tg + [PENDING];
      var j := t.ip + Len(e.test, hdr);
      YieldsHere(m, t);
      LoopReady(p, m, s, ctx, tg, t, s.ops, Scope(e.tag, false), PENDING);
      var o := SimSub(p, m, fuel, e.test, t, s, ctx, tg, t, hdr, th);
      if o.Normal? {
        var t1 := After(t, j, o);
        var end := next - 2;
        DoJumpIf(m, t1, OP_JIFNOTPOP, s.ops, Top(o), end);
        YieldsStep(m, t, t1, Step(m, t1));
        if Boolify(p.host, Top(o)) == Ok(false) {
          LoopExits(m, t, s, t.(ip := end, heap := o.heap), s.ops);
        } else if Boolify(p.host, Top(o)) == Ok(true) {
          SimIteration(p, m, fuel, e, t, s, ctx, tg, t.(ip := j + 2, heap := o.heap), t.ip, next);
        }
      }
    }
  }

  /** From a passed test: the body, and then whatever follows it. */
  lemma SimIteration(p: Program, m: Image, fuel: nat, e: Expr, r: State, s: State, ctx: Ctx, tg: Targets,
                     t: State, top: nat, next: nat)
    requires AtWhile(p, m, e, s, ctx, tg, top, next) && Looping(s, t, s.ops) && fuel > 0
    requires Yields(m, r, Running(t)) && t.ip == top + Len(e.test, Header(e, ctx)) + 2
    ensures var o2 := Eval(p, fuel, e.body, t.env, t.heap, Inside(e, ctx));
            Ends(m, r, s, next, ctx, tg, fuel,
                 if o2.Normal? || o2 == Cont(|ctx|, HeapOf(o2)) then EvalUpdate(p, fuel, e, t.env, HeapOf(o2), ctx)
                 else if o2 == Brk(|ctx|, HeapOf(o2)) then Normal([Nil], HeapOf(o2))
                 else o2)
    decreases fuel, e, 0, 1
  {
    hide Step, Yields, LiveFor, Linked, Shares, Eval, Emitted, WellFormed, Len;
    hide EvalUpdate;
    var o2 := SimBody(p, m, fuel, e, OP_JIFNOTPOP, r, s, ctx, tg, t, s.ops, top, t.ip - 2);
    var u0 := t.ip + 5 + Len(e.body, Inside(e, ctx));
    if o2.Normal? || o2 == Cont(|ctx|, HeapOf(o2)) {
      var t2 := t.(ip := u0, heap := HeapOf(o2));
      SimUpdate(p, m, fuel, e, s, ctx, tg, t2, top, next);
      EndsEarlier(m, r, t2, s, next, ctx, tg, fuel, EvalUpdate(p, fuel, e, t2.env, t2.heap, ctx));
    } else if o2 == Brk(|ctx|, HeapOf(o2)) {
      LoopExits(m, r, s, t.(ip := next - 2, heap := HeapOf(o2)), s.ops);
    }
  }

  /** The update of a loop, then back to its test. */
  lemma SimUpdate(p: Program, m: Image, fuel: nat, e: Expr, s: State, ctx: Ctx, tg: Targets, t: State, top: nat,
      next: nat)
    requires AtWhile(p, m, e, s, ctx, tg, top, next) && Looping(s, t, s.ops)
    requires t.ip == top + Len(e.test, Header(e, ctx)) + 7 + Len(e.body, Inside(e, ctx))
    ensures Ends(m, t, s, next, ctx, tg, fuel, EvalUpdate(p, fuel, e, t.env, t.heap, ctx))
    decreases fuel, e, 0, 0
  {
    hide Step, Yields, LiveFor, Linked, Shares, Eval, Emitted, WellFormed, Len;
    hide EvalLoop;
    YieldsHere(m, t);
    if fuel == 0 {
      LiveNow(m, t);
    } else if e.update.None? {
      SimNextTest(p, m, fuel, e, t, s, ctx, tg, t, top, next);
    } else {
      var d, u := |ctx|, e.update.value;
      var j := top + Len(e.test, Header(e, ctx));
      LoopReady(p, m, s, ctx, tg, t, s.ops, Scope(e.tag, true), Target(j, j + 4));
      assert EmittedUpdate(e, Inside(e, ctx), tg + [Target(j, j + 4)], m.codes[s.code], t.ip);
      var o := SimSub(p, m, fuel, u, t, s, ctx, tg, t, Inside(e, ctx), tg + [Target(j, j + 4)]);
      if o.Normal? {
        var t1 := After(t, t.ip + Len(u, Inside(e, ctx)), o);
        DoPop(m, t1, s.ops, Top(o));
        var t2 := Next(t1, 1, s.ops, o.heap);
        YieldsStep(m, t, t1, Running(t2));
        SimNextTest(p, m, fuel, e, t, s, ctx, tg, t2, top, next);
      } else if o.Brk? && o.loop == d {
        assert t.ops[..|s.ops|] == s.ops && t.marks[..|t.marks|] == t.marks;
        assert Unwound(t, d + 1, d, j, [End], o.heap) == t.(ip := j, ops := s.ops + [End], heap := o.heap);
        BreakExits(m, t, t.(heap := o.heap), s.ops, OP_JIFNOTPOP, j, next - 2);
        LoopExits(m, t, s, t.(ip := next - 2, heap := o.heap), s.ops);
      } else if o.Cont? && o.loop == d {
        assert t.ops[..|s.ops|] == s.ops && t.marks[..|t.marks|] == t.marks;
        assert Unwound(t, d + 1, d, j + 4, [], o.heap) == t.(ip := j + 4, heap := o.heap);
        SimUpdateAgain(p, m, fuel, e, s, ctx, tg, t, o.heap, top, next);
      }
    }
  }

  /** A continue in the update jumps to the update. */
  lemma SimUpdateAgain(p: Program, m: Image, fuel: nat, e: Expr, s: State, ctx: Ctx, tg: Targets, t: State, h: Heap,
      top: nat, next: nat)
    requires AtWhile(p, m, e, s, ctx, tg, top, next) && Looping(s, t, s.ops) && fuel > 0
    requires t.ip == top + Len(e.test, Header(e, ctx)) + 7 + Len(e.body, Inside(e, ctx))
    requires Yields(m, t, Running(t.(ip := top + Len(e.test, Header(e, ctx)) + 4, heap := h)))
    ensures Ends(m, t, s, next, ctx, tg, fuel, EvalUpdate(p, fuel - 1, e, t.env, h, ctx))
    decreases fuel - 1, e, 1, 0
  {
    hide Step, Yields, LiveFor, Linked, Shares, Eval, Emitted, WellFormed, Len, EvalUpdate;
    var j := top + Len(e.test, Header(e, ctx));
    var t1, t2 := t.(ip := j + 4, heap := h), t.(heap := h);
    assert EmittedBody(e, Inside(e, ctx), tg + [Target(j, j + 4)], m.codes[s.code], j + 2);
    DoJump(m, t1, t.ip);
    SimUpdate(p, m, fuel - 1, e, s, ctx, tg, t2, top, next);
    EndsAgain(m, t, t1, t2, s, next, ctx, tg, fuel, EvalUpdate(p, fuel - 1, e, t2.env, t2.heap, ctx));
  }

  lemma SimNextTest(p: Program, m: Image, fuel: nat, e: Expr, r: State, s: State, ctx: Ctx, tg: Targets,
                    t: State, top: nat, next: nat)
    requires AtWhile(p, m, e, s, ctx, tg, top, next) && Looping(s, t, s.ops) && fuel > 0
    requires Yields(m, r, Running(t)) && t.ip == next - 4
    ensures Ends(m, r, s, next, ctx, tg, fuel, EvalLoop(p, fuel - 1, e, t.env, t.heap, ctx))
    decreases fuel - 1, e, 2
  {
    hide Step, Yields, LiveFor, Linked, Shares, Eval, Emitted, WellFormed, Len;
    hide EvalLoop;
    DoJump(m, t, top);
    var t1 := t.(ip := top);
    SimLoop(p, m, fuel - 1, e, s, ctx, tg, t1, next);
    EndsAgain(m, r, t, t1, s, next, ctx, tg, fuel, EvalLoop(p, fuel - 1, e, t1.env, t1.heap, ctx));
  }

  lemma SimWhile(p: Program, m: Image, fuel: nat, e: Expr, s: State, ctx: Ctx, tg: Targets, next: nat)
    requires Ready(p, m, s, ctx, tg) && e.Loop?
    requires WellFormed(e.test, Header(e, ctx)) && WellFormed(e.body, Inside(e, ctx))
    requires e.update.Some? ==> WellFormed(e.update.value, Inside(e, ctx))
    requires EmittedWhile(e, ctx, tg, m.codes[s.code], s.ip)
    requires next == s.ip + 1 + Len(e.test, Header(e, ctx)) + 2 + LoopLen(e, ctx)
    ensures Simulates(m, s, next, ctx, tg, fuel, EvalLoop(p, fuel, e, s.env, s.heap, ctx))
    decreases fuel, e, 2
  {
    hide Step, Yields, LiveFor, Linked, Shares, Eval, Emitted, WellFormed, Len;
    hide EvalLoop;
    DoMark(m, s);
    var t := s.(ip := s.ip + 1, marks := s.marks + [|s.ops|]);
    StepYields(m, s);
    SimLoop(p, m, fuel, e, s, ctx, tg, t, next);
    EndsEarlier(m, s, t, s, next, ctx, tg, fuel, EvalLoop(p, fuel, e, t.env, t.heap, ctx));
  }

  /** What is known of a `foreach` or `forindex` loop and its code. */
  ghost predicate AtForEach(p: Program, m: Image, e: Expr, s: State, ctx: Ctx, tg: Targets, top: nat, next: nat) {
    && Ready(p, m, s, ctx, tg) && e.ForEach?
    && WellFormedLV(e.lv, Header(e, ctx)) && WellFormed(e.body, Inside(e, ctx))
    && Op(m.codes[s.code], top, if e.useIndex then OP_INDEX else OP_EACH)
    && EmittedStore(e.lv, Header(e, ctx), tg + [PENDING], m.codes[s.code], top + 3)
    && var b0 := top + 5 + LenTarget(e.lv, Header(e, ctx));
    && Op(m.codes[s.code], b0 - 1, OP_POP)
    && EmittedLoop(e, OP_JIFEND, ctx, tg, m.codes[s.code], top, top + 1, b0)
    && next == b0 + LoopLen(e, ctx) + 2
    && Op(m.codes[s.code], next - 2, OP_POP) && Op(m.codes[s.code], next - 1, OP_POP)
  }

  /** At the end of an enumeration the nil and the index go, the vector stays. */
  lemma EachExits(p: Program, m: Image, e: Expr, r: State, s: State, ctx: Ctx, tg: Targets,
                  t: State, vec: Value, i: nat, top: nat, next: nat)
    requires AtForEach(p, m, e, s, ctx, tg, top, next) && Looping(s, t, s.ops + [vec, Num(i as real)])
    requires Yields(m, r, Running(t)) && t.ip == next - 4
    ensures Yields(m, r, Running(s.(ip := next, ops := s.ops + [vec], heap := t.heap)))
  {
    hide Step, Yields, LiveFor, Linked, Shares, Eval, Emitted, WellFormed, Len;
    var n := Num(i as real);
    LoopExits(m, r, s, t, s.ops + [vec, n]);
    var t1 := s.(ip := next - 2, ops := s.ops + [vec, n] + [Nil], heap := t.heap);
    DoPop(m, t1, s.ops + [vec, n], Nil);
    var t2 := Next(t1, 1, s.ops + [vec, n], t.heap);
    YieldsStep(m, r, t1, Running(t2));
    assert t2.ops == s.ops + [vec] + [n];
    DoPop(m, t2, s.ops + [vec], n);
    YieldsStep(m, r, t2, Step(m, t2));
  }

  /** An enumeration from element `i` on. */
  lemma SimEach(p: Program, m: Image, fuel: nat, e: Expr, vec: Value, i: nat, s: State, ctx: Ctx, tg: Targets,
                t: State, next: nat)
    requires AtForEach(p, m, e, s, ctx, tg, t.ip, next) && Looping(s, t, s.ops + [vec, Num(i as real)])
    ensures Ends(m, t, s, next, ctx, tg, fuel, EvalEach(p, fuel, e, vec, i, t.env, t.heap, ctx))
    decreases fuel, e, 0, 2
  {
    hide Step, Yields, LiveFor, Linked, Shares, Eval, Emitted, WellFormed, Len;
    hide EvalStore, EmittedStore, EachItem;
    if fuel == 0 {
      LiveNow(m, t);
    } else {
      YieldsHere(m, t);
      DoEach(m, t, s.ops, vec, i, e.useIndex);
      YieldsStep(m, t, t, Step(m, t));
      var r := EachItem(t.heap, vec, i, e.useIndex);
      if r.Ok? {
        var k := EachNext(t.heap, vec, i, e.useIndex);
        var base := s.ops + [vec, Num(k as real)];
        var t1 := Next(t, 1, base + [r.value], t.heap);
        assert s.ops + [vec, Num(k as real), r.value] == base + [r.value];
        DoJumpIfEnd(m, t1, base, r.value, next - 4);
        YieldsStep(m, t, t1, Step(m, t1));
        if r.value == End {
          EachExits(p, m, e, t, s, ctx, tg, t.(ip := next - 4, ops := base), vec, k, t.ip, next);
        } else {
          SimEachBody(p, m, fuel, e, vec, i, r.value, t, s, ctx, tg, t1.(ip := t1.ip + 2), t.ip, next);
        }
      }
    }
  }

  /** The index left on the stack after looking at element `i`. */
  function EachNext(h: Heap, vec: Value, i: nat, useIndex: bool): (k: nat)
    requires EachItem(h, vec, i, useIndex).Ok?
    ensures EachItem(h, vec, i, useIndex).value != End ==> k == i + 1
  {
    if i >= |h[vec.addr].elems| then i else i + 1
  }

  /** One element: assign it, run the body, go on with the next. */
  lemma SimEachBody(p: Program, m: Image, fuel: nat, e: Expr, vec: Value, i: nat, item: Value, r: State, s: State,
                    ctx: Ctx, tg: Targets, t: State, top: nat, next: nat)
    requires AtForEach(p, m, e, s, ctx, tg, top, next) && fuel > 0 && t.ip == top + 3
    requires var base := s.ops + [vec, Num((i + 1) as real)];
             t.ops == base + [item] && Looping(s, t.(ops := base), base)
    requires Yields(m, r, Running(t))
    ensures var o1 := EvalStore(p, fuel, e.lv, item, t.env, t.heap, Header(e, ctx));
            var o2 := Eval(p, fuel, e.body, t.env, HeapOf(o1), Inside(e, ctx));
            Ends(m, r, s, next, ctx, tg, fuel,
                 if !o1.Normal? then o1
                 else if o2.Normal? || o2 == Cont(|ctx|, HeapOf(o2)) then
                   EvalEach(p, fuel - 1, e, vec, i + 1, t.env, HeapOf(o2), ctx)
                 else if o2 == Brk(|ctx|, HeapOf(o2)) then Normal([vec], HeapOf(o2))
                 else o2)
    decreases fuel, e, 0, 1
  {
    hide Step, Yields, LiveFor, Linked, Shares, Eval, Emitted, WellFormed, Len;
    hide EvalStore, EmittedStore, EvalEach;
    var base := s.ops + [vec, Num((i + 1) as real)];
    var b0 := top + 5 + LenTarget(e.lv, Header(e, ctx));
    EachReady(p, m, s, ctx, tg, t, base, item, e.tag);
    var o1 := SimStore(p, m, fuel, e.lv, item, base, r, s, ctx, tg, t, Header(e, ctx), tg + [PENDING]);
    if o1.Normal? {
      var t1 := t.(ip := b0 - 1, heap := o1.heap);
      DoPop(m, t1, base, item);
      var t2 := Next(t1, 1, base, o1.heap);
      YieldsStep(m, r, t1, Running(t2));
      var o2 := SimBody(p, m, fuel, e, OP_JIFEND, r, s, ctx, tg, t2, base, top, top + 1);
      if o2.Normal? || o2 == Cont(|ctx|, HeapOf(o2)) {
        var t3 := t2.(ip := next - 6, heap := HeapOf(o2));
        DoJump(m, t3, top);
        var t4 := t3.(ip := top);
        SimEach(p, m, fuel - 1, e, vec, i + 1, s, ctx, tg, t4, next);
        EndsAgain(m, r, t3, t4, s, next, ctx, tg, fuel, EvalEach(p, fuel - 1, e, vec, i + 1, t4.env, t4.heap, ctx));
      } else if o2 == Brk(|ctx|, HeapOf(o2)) {
        EachExits(p, m, e, r, s, ctx, tg, t2.(ip := next - 4, heap := HeapOf(o2)), vec, i + 1, top, next);
      }
    }
  }

  lemma EachReady(p: Program, m: Image, s: State, ctx: Ctx, tg: Targets, t: State, base: seq<Value>, item: Value,
      tag: Option<string>)
    requires Ready(p, m, s, ctx, tg) && t.ops == base + [item] && Looping(s, t.(ops := base), base)
    ensures Ready(p, m, t, ctx + [Scope(tag, false)], tg + [PENDING])
    ensures Within(s, ctx, tg, t, ctx + [Scope(tag, false)], tg + [PENDING])
  {
    hide Linked;
  }

  lemma SimForEach(p: Program, m: Image, fuel: nat, e: Expr, s: State, ctx: Ctx, tg: Targets, next: nat)
    requires Ready(p, m, s, ctx, tg) && e.ForEach?
    requires WellFormed(e.vec, ctx) && WellFormedLV(e.lv, Header(e, ctx)) && WellFormed(e.body, Inside(e, ctx))
    requires EmittedForEach(e, ctx, tg, m.codes[s.code], s.ip)
    requires next == s.ip + Len(e.vec, ctx) + 5 + LenTarget(e.lv, Header(e, ctx)) + 2 + LoopLen(e, ctx) + 2
    ensures Simulates(m, s, next, ctx, tg, fuel, EvalForEach(p, fuel, e, s.env, s.heap, ctx))
    decreases fuel, e, 1
  {
    hide Step, Yields, LiveFor, Linked, Shares, Eval, Emitted, WellFormed, Len;
    hide EvalEach, EmittedStore;
    YieldsHere(m, s);
    var o := SimSub(p, m, fuel, e.vec, s, s, ctx, tg, s, ctx, tg);
    if o.Normal? {
      var t := After(s, s.ip + Len(e.vec, ctx), o);
      DoPush(m, t);
      var t1 := Next(t, 1, s.ops + [Top(o), Num(0.0)], o.heap);
      assert t.ops + [Num(0.0)] == t1.ops;
      YieldsStep(m, s, t, Running(t1));
      DoMark(m, t1);
      var t2 := t1.(ip := t1.ip + 1, marks := s.marks + [|t1.ops|]);
      YieldsStep(m, s, t1, Running(t2));
      SimEach(p, m, fuel, e, Top(o), 0, s, ctx, tg, t2, next);
      EndsEarlier(m, s, t2, s, next, ctx, tg, fuel, EvalEach(p, fuel, e, Top(o), 0, t2.env, t2.heap, ctx));
    }
  }

  // ----- every expression -----

  lemma SimOperator(p: Program, m: Image, fuel: nat, e: Expr, s: State, ctx: Ctx, tg: Targets)
    requires Ready(p, m, s, ctx, tg) && WellFormed(e, ctx) && Emitted(e, ctx, tg, m.codes[s.code], s.ip)
    requires e.Unary? || e.Binary?
    ensures Simulates(m, s, s.ip + Len(e, ctx), ctx, tg, fuel, Eval(p, fuel, e, s.env, s.heap, ctx))
    decreases fuel, e, 2
  {
    hide Step, Yields, LiveFor, Linked, Shares, Simulates, Anchored;
    hide EmittedBinary, EmittedUnary, EvalBinary, EvalUnary;
    var next := s.ip + Len(e, ctx);
    match e
    case Unary(_, _) => SimUnary(p, m, fuel, e, s, ctx, tg, next);
    case Binary(_, _, _) => SimBinary(p, m, fuel, e, s, ctx, tg, next);
  }

  lemma SimPlain(p: Program, m: Image, fuel: nat, e: Expr, s: State, ctx: Ctx, tg: Targets)
    requires Ready(p, m, s, ctx, tg) && Emitted(e, ctx, tg, m.codes[s.code], s.ip) && IsLeaf(e)
    ensures Simulates(m, s, s.ip + Len(e, ctx), ctx, tg, fuel, Eval(p, fuel, e, s.env, s.heap, ctx))
  {
    hide Step, Yields, LiveFor, Linked, Shares, Simulates, Anchored, EmittedLeaf, EvalLeaf;
    SimLeaf(p, m, fuel, e, s, ctx, tg);
  }

  lemma SimAccess(p: Program, m: Image, fuel: nat, e: Expr, s: State, ctx: Ctx, tg: Targets)
    requires Ready(p, m, s, ctx, tg) && WellFormed(e, ctx) && Emitted(e, ctx, tg, m.codes[s.code], s.ip)
    requires e.HashAppend? || e.Member?
    ensures Simulates(m, s, s.ip + Len(e, ctx), ctx, tg, fuel, Eval(p, fuel, e, s.env, s.heap, ctx))
    decreases fuel, e, 2
  {
    hide Step, Yields, LiveFor, Linked, Shares, Simulates, Anchored;
    hide EmittedHashAppend, EmittedMember, EvalHashAppend, EvalMember;
    var next := s.ip + Len(e, ctx);
    match e
    case HashAppend(_, _, _) => SimHashAppend(p, m, fuel, e, s, ctx, tg, next);
    case Member(_, _) => SimMember(p, m, fuel, e, s, ctx, tg, next);
  }

  lemma SimBranch(p: Program, m: Image, fuel: nat, e: Expr, s: State, ctx: Ctx, tg: Targets)
    requires Ready(p, m, s, ctx, tg) && WellFormed(e, ctx) && Emitted(e, ctx, tg, m.codes[s.code], s.ip)
    requires e.Cond? || e.Semi?
    ensures Simulates(m, s, s.ip + Len(e, ctx), ctx, tg, fuel, Eval(p, fuel, e, s.env, s.heap, ctx))
    decreases fuel, e, 2
  {
    hide Step, Yields, LiveFor, Linked, Shares, Simulates, Anchored;
    hide EmittedCond, EmittedSemi, EvalCond, EvalSemi;
    var next := s.ip + Len(e, ctx);
    match e
    case Cond(_, _, _) => SimCond(p, m, fuel, e, s, ctx, tg, next);
    case Semi(_, _) => SimSemi(p, m, fuel, e, s, ctx, tg, next);
  }

  lemma SimLogic(p: Program, m: Image, fuel: nat, e: Expr, s: State, ctx: Ctx, tg: Targets)
    requires Ready(p, m, s, ctx, tg) && WellFormed(e, ctx) && Emitted(e, ctx, tg, m.codes[s.code], s.ip)
    requires e.And? || e.Or?
    ensures Simulates(m, s, s.ip + Len(e, ctx), ctx, tg, fuel, Eval(p, fuel, e, s.env, s.heap, ctx))
    decreases fuel, e, 2
  {
    hide Step, Yields, LiveFor, Linked, Shares, Simulates, Anchored, EmittedShort, EvalShort;
    SimShort(p, m, fuel, e, s, ctx, tg, s.ip + Len(e, ctx));
  }

  lemma SimAssignment(p: Program, m: Image, fuel: nat, e: Expr, s: State, ctx: Ctx, tg: Targets)
    requires Ready(p, m, s, ctx, tg) && WellFormed(e, ctx) && Emitted(e, ctx, tg, m.codes[s.code], s.ip)
    requires e.Assign? || e.OpAssign? || e.MultiAssign? || e.Unpack?
    ensures Simulates(m, s, s.ip + Len(e, ctx), ctx, tg, fuel, Eval(p, fuel, e, s.env, s.heap, ctx))
    decreases fuel, e, 2
  {
    hide Step, Yields, LiveFor, Linked, Shares, Simulates, Anchored;
    hide EmittedAssign, EmittedMultiAssign, EmittedOpAssign, EmittedUnpack;
    hide EvalMultiAssign, EvalOpAssign, EvalPlainAssign, EvalUnpack;
    var next := s.ip + Len(e, ctx);
    match e
    case Assign(_, _) => SimPlainAssign(p, m, fuel, e, s, ctx, tg, next);
    case OpAssign(_, _, _) => SimOpAssign(p, m, fuel, e, s, ctx, tg, next);
    case MultiAssign(_, _) => SimMultiAssign(p, m, fuel, e, s, ctx, tg, next);
    case Unpack(_, _) => SimUnpack(p, m, fuel, e, s, ctx, tg, next);
  }

  lemma SimLooping(p: Program, m: Image, fuel: nat, e: Expr, s: State, ctx: Ctx, tg: Targets)
    requires Ready(p, m, s, ctx, tg) && WellFormed(e, ctx) && Emitted(e, ctx, tg, m.codes[s.code], s.ip)
    requires e.Loop? || e.ForEach?
    ensures Simulates(m, s, s.ip + Len(e, ctx), ctx, tg, fuel, Eval(p, fuel, e, s.env, s.heap, ctx))
    decreases fuel, e, 3
  {
    hide Step, Yields, LiveFor, Linked, Shares, Simulates, Anchored;
    hide EmittedForEach, EmittedWhile, EvalForEach, EvalLoop;
    var next := s.ip + Len(e, ctx);
    match e
    case Loop(_, _, _, _) => SimWhile(p, m, fuel, e, s, ctx, tg, next);
    case ForEach(_, _, _, _, _) => SimForEach(p, m, fuel, e, s, ctx, tg, next);
  }

  lemma SimLeaving(p: Program, m: Image, fuel: nat, e: Expr, s: State, ctx: Ctx, tg: Targets)
    requires Ready(p, m, s, ctx, tg) && WellFormed(e, ctx) && Emitted(e, ctx, tg, m.codes[s.code], s.ip)
    requires e.Return?
    ensures Simulates(m, s, s.ip + Len(e, ctx), ctx, tg, fuel, Eval(p, fuel, e, s.env, s.heap, ctx))
    decreases fuel, e, 2
  {
    hide Step, Yields, LiveFor, Linked, Shares, Simulates, Anchored;
    hide EmittedReturn, EvalReturn;
    SimReturn(p, m, fuel, e, s, ctx, tg, s.ip + Len(e, ctx));
  }

  lemma SimCalling(p: Program, m: Image, fuel: nat, e: Expr, s: State, ctx: Ctx, tg: Targets)
    requires Ready(p, m, s, ctx, tg) && WellFormed(e, ctx) && Emitted(e, ctx, tg, m.codes[s.code], s.ip)
    requires e.Call? || e.MethodCall?
    ensures Simulates(m, s, s.ip + Len(e, ctx), ctx, tg, fuel, Eval(p, fuel, e, s.env, s.heap, ctx))
    decreases fuel, e, 2
  {
    hide Step, Yields, LiveFor, Linked, Simulates, Anchored, EmittedCall, EmittedMethodCall, EvalCall, EvalMethodCall;
    var next := s.ip + Len(e, ctx);
    match e
    case Call(_, _) => SimCall(p, m, fuel, e, s, ctx, tg, next);
    case MethodCall(_, _, _) => SimMethodCall(p, m, fuel, e, s, ctx, tg, next);
  }

  lemma SimNaming(p: Program, m: Image, fuel: nat, e: Expr, s: State, ctx: Ctx, tg: Targets)
    requires Ready(p, m, s, ctx, tg) && WellFormed(e, ctx) && Emitted(e, ctx, tg, m.codes[s.code], s.ip) && e.NamedCall?
    ensures Simulates(m, s, s.ip + Len(e, ctx), ctx, tg, fuel, Eval(p, fuel, e, s.env, s.heap, ctx))
    decreases fuel, e, 2
  {
    hide Step, Yields, LiveFor, Linked, Simulates, Anchored, EmittedNamedCall, EvalNamedCall;
    SimNamedCall(p, m, fuel, e, s, ctx, tg, s.ip + Len(e, ctx));
  }

  lemma SimNamingMethod(p: Program, m: Image, fuel: nat, e: Expr, s: State, ctx: Ctx, tg: Targets)
    requires Ready(p, m, s, ctx, tg) && WellFormed(e, ctx) && Emitted(e, ctx, tg, m.codes[s.code], s.ip)
    requires e.NamedMethodCall?
    ensures Simulates(m, s, s.ip + Len(e, ctx), ctx, tg, fuel, Eval(p, fuel, e, s.env, s.heap, ctx))
    decreases fuel, e, 2
  {
    hide Step, Yields, LiveFor, Linked, Simulates, Anchored, EmittedNamedMethodCall, EvalNamedMethodCall;
    SimNamedMethodCall(p, m, fuel, e, s, ctx, tg, s.ip + Len(e, ctx));
  }

  /** Emitted code does what its expression means: from any stack, with any
      callers, it ends as the evaluation ends. */
  lemma SimExpr(p: Program, m: Image, fuel: nat, e: Expr, s: State, ctx: Ctx, tg: Targets)
    requires Ready(p, m, s, ctx, tg) && WellFormed(e, ctx) && Emitted(e, ctx, tg, m.codes[s.code], s.ip)
    ensures Simulates(m, s, s.ip + Len(e, ctx), ctx, tg, fuel, Eval(p, fuel, e, s.env, s.heap, ctx))
    decreases fuel, e, 4
  {
    if e.Break? || e.Continue? {
      JumpOut(p, m, fuel, e, s, ctx, tg);
    } else {
      hide Step, Yields, LiveFor, Linked, Shares, Simulates, Anchored, Eval, Emitted, WellFormed, Len;
      if IsLeaf(e) {
        SimPlain(p, m, fuel, e, s, ctx, tg);
      } else if e.And? || e.Or? {
        SimLogic(p, m, fuel, e, s, ctx, tg);
      } else if e.Cond? || e.Semi? {
        SimBranch(p, m, fuel, e, s, ctx, tg);
      } else if e.Assign? || e.OpAssign? || e.MultiAssign? || e.Unpack? {
        SimAssignment(p, m, fuel, e, s, ctx, tg);
      } else if e.Loop? || e.ForEach? {
        SimLooping(p, m, fuel, e, s, ctx, tg);
      } else if e.Return? {
        SimLeaving(p, m, fuel, e, s, ctx, tg);
      } else if e.HashAppend? || e.Member? {
        SimAccess(p, m, fuel, e, s, ctx, tg);
      } else if e.Call? || e.MethodCall? {
        SimCalling(p, m, fuel, e, s, ctx, tg);
      } else if e.NamedCall? {
        SimNaming(p, m, fuel, e, s, ctx, tg);
      } else if e.NamedMethodCall? {
        SimNamingMethod(p, m, fuel, e, s, ctx, tg);
      } else {
        SimOperator(p, m, fuel, e, s, ctx, tg);
      }
    }
  }

  lemma JumpOut(p: Program, m: Image, fuel: nat, e: Expr, s: State, ctx: Ctx, tg: Targets)
    requires Ready(p, m, s, ctx, tg) && WellFormed(e, ctx) && Emitted(e, ctx, tg, m.codes[s.code], s.ip)
    requires e.Break? || e.Continue?
    ensures Simulates(m, s, s.ip + Len(e, ctx), ctx, tg, fuel, Eval(p, fuel, e, s.env, s.heap, ctx))
  {
    hide Step, Yields, LiveFor, Linked, Leaves, Anchored, EmittedBreak, EmittedContinue, Resolve;
    var o := Eval(p, fuel, e, s.env, s.heap, ctx);
    if e.Break? {
      SimBreak(m, fuel, e, s, ctx, tg, o);
    } else {
      SimContinue(m, fuel, e, s, ctx, tg, o);
    }
  }
}
