/** Fuel is only a bound: an evaluation that ends within its fuel ends in the same
    way with any more of it. */
module Fuel {
  import opened Basics
  import opened Values
  import opened Syntax
  import opened Semantics

  /** What more fuel gives is what less fuel gave, if that was an end at all. */
  predicate Same(o: Outcome, o': Outcome) { o.Timeout? || o' == o }

  lemma MoreUnary(p: Program, fuel: nat, more: nat, e: Expr, env: Env, h: Heap, ctx: Ctx)
    requires e.Unary? && fuel <= more
    ensures Same(EvalUnary(p, fuel, e, env, h, ctx), EvalUnary(p, more, e, env, h, ctx))
    decreases fuel, e, 1
  {
    hide Eval, EvalList, EvalReverse, EvalTarget, EvalStore, EvalAssign, Invoke;
    MoreExpr(p, fuel, more, e.arg, env, h, ctx);
  }

  lemma MoreMember(p: Program, fuel: nat, more: nat, e: Expr, env: Env, h: Heap, ctx: Ctx)
    requires e.Member? && fuel <= more
    ensures Same(EvalMember(p, fuel, e, env, h, ctx), EvalMember(p, more, e, env, h, ctx))
    decreases fuel, e, 1
  {
    hide Eval, EvalList, EvalReverse, EvalTarget, EvalStore, EvalAssign, Invoke;
    MoreExpr(p, fuel, more, e.obj, env, h, ctx);
  }

  lemma MoreReturn(p: Program, fuel: nat, more: nat, e: Expr, env: Env, h: Heap, ctx: Ctx)
    requires e.Return? && fuel <= more
    ensures Same(EvalReturn(p, fuel, e, env, h, ctx), EvalReturn(p, more, e, env, h, ctx))
    decreases fuel, e, 1
  {
    hide Eval, EvalList, EvalReverse, EvalTarget, EvalStore, EvalAssign, Invoke;
    MoreExpr(p, fuel, more, e.arg, env, h, ctx);
  }

  lemma MoreBinary(p: Program, fuel: nat, more: nat, e: Expr, env: Env, h: Heap, ctx: Ctx)
    requires e.Binary? && fuel <= more
    ensures Same(EvalBinary(p, fuel, e, env, h, ctx), EvalBinary(p, more, e, env, h, ctx))
    decreases fuel, e, 1
  {
    hide Eval, EvalList, EvalReverse, EvalTarget, EvalStore, EvalAssign, Invoke;
    MoreExpr(p, fuel, more, e.left, env, h, ctx);
    var o := Eval(p, fuel, e.left, env, h, ctx);
    if o.Normal? {
      MoreExpr(p, fuel, more, e.right, env, o.heap, ctx);
    }
  }

  lemma MoreSemi(p: Program, fuel: nat, more: nat, e: Expr, env: Env, h: Heap, ctx: Ctx)
    requires e.Semi? && fuel <= more
    ensures Same(EvalSemi(p, fuel, e, env, h, ctx), EvalSemi(p, more, e, env, h, ctx))
    decreases fuel, e, 1
  {
    hide Eval, EvalList, EvalReverse, EvalTarget, EvalStore, EvalAssign, Invoke;
    MoreExpr(p, fuel, more, e.first, env, h, ctx);
    var o := Eval(p, fuel, e.first, env, h, ctx);
    if o.Normal? {
      MoreExpr(p, fuel, more, e.rest, env, o.heap, ctx);
    }
  }

  lemma MoreShort(p: Program, fuel: nat, more: nat, e: Expr, env: Env, h: Heap, ctx: Ctx)
    requires (e.And? || e.Or?) && fuel <= more
    ensures Same(EvalShort(p, fuel, e, env, h, ctx), EvalShort(p, more, e, env, h, ctx))
    decreases fuel, e, 1
  {
    hide Eval, EvalList, EvalReverse, EvalTarget, EvalStore, EvalAssign, Invoke;
    MoreExpr(p, fuel, more, e.left, env, h, ctx);
    var o := Eval(p, fuel, e.left, env, h, ctx);
    if o.Normal? {
      MoreExpr(p, fuel, more, e.right, env, o.heap, ctx);
    }
  }

  lemma MoreHashAppend(p: Program, fuel: nat, more: nat, e: Expr, env: Env, h: Heap, ctx: Ctx)
    requires e.HashAppend? && fuel <= more
    ensures Same(EvalHashAppend(p, fuel, e, env, h, ctx), EvalHashAppend(p, more, e, env, h, ctx))
    decreases fuel, e, 1
  {
    hide Eval, EvalList, EvalReverse, EvalTarget, EvalStore, EvalAssign, Invoke;
    MoreExpr(p, fuel, more, e.hash, env, h, ctx);
    var o1 := Eval(p, fuel, e.hash, env, h, ctx);
    if o1.Normal? {
      MoreExpr(p, fuel, more, e.key, env, o1.heap, ctx);
      var o2 := Eval(p, fuel, e.key, env, o1.heap, ctx);
      if o2.Normal? {
        MoreExpr(p, fuel, more, e.val, env, o2.heap, ctx);
      }
    }
  }

  lemma MoreCond(p: Program, fuel: nat, more: nat, e: Expr, env: Env, h: Heap, ctx: Ctx)
    requires e.Cond? && fuel <= more
    ensures Same(EvalCond(p, fuel, e, env, h, ctx), EvalCond(p, more, e, env, h, ctx))
    decreases fuel, e, 1
  {
    hide Eval, EvalList, EvalReverse, EvalTarget, EvalStore, EvalAssign, Invoke;
    MoreExpr(p, fuel, more, e.test, env, h, ctx);
    var o := Eval(p, fuel, e.test, env, h, ctx);
    if o.Normal? {
      MoreExpr(p, fuel, more, e.thn, env, o.heap, ctx);
      MoreExpr(p, fuel, more, e.els, env, o.heap, ctx);
    }
  }

  lemma MorePlainAssign(p: Program, fuel: nat, more: nat, e: Expr, env: Env, h: Heap, ctx: Ctx)
    requires e.Assign? && fuel <= more
    ensures Same(EvalPlainAssign(p, fuel, e, env, h, ctx), EvalPlainAssign(p, more, e, env, h, ctx))
    decreases fuel, e, 1
  {
    hide Eval, EvalList, EvalReverse, EvalTarget, EvalStore, EvalAssign, Invoke;
    MoreExpr(p, fuel, more, e.rhs, env, h, ctx);
    var o := Eval(p, fuel, e.rhs, env, h, ctx);
    if o.Normal? {
      MoreStore(p, fuel, more, e.lv, Top(o), env, o.heap, ctx);
    }
  }

  lemma MoreMultiAssign(p: Program, fuel: nat, more: nat, e: Expr, env: Env, h: Heap, ctx: Ctx)
    requires e.MultiAssign? && fuel <= more
    ensures Same(EvalMultiAssign(p, fuel, e, env, h, ctx), EvalMultiAssign(p, more, e, env, h, ctx))
    decreases fuel, e, 1
  {
    hide Eval, EvalList, EvalReverse, EvalTarget, EvalStore, EvalAssign, Invoke;
    MoreReverse(p, fuel, more, e.rvs, env, h, ctx);
    var o := EvalReverse(p, fuel, e.rvs, env, h, ctx);
    if o.Normal? && CountLV(e.lvs) == Count(e.rvs) {
      MoreAssign(p, fuel, more, e.lvs, o.vals, env, o.heap, ctx);
    }
  }

  lemma MoreUnpack(p: Program, fuel: nat, more: nat, e: Expr, env: Env, h: Heap, ctx: Ctx)
    requires e.Unpack? && fuel <= more
    ensures Same(EvalUnpack(p, fuel, e, env, h, ctx), EvalUnpack(p, more, e, env, h, ctx))
    decreases fuel, e, 1
  {
    hide Eval, EvalList, EvalReverse, EvalTarget, EvalStore, EvalAssign, Invoke;
    MoreExpr(p, fuel, more, e.rhs, env, h, ctx);
    var o := Eval(p, fuel, e.rhs, env, h, ctx);
    if o.Normal? {
      var r := UnpackVec(o.heap, Top(o), CountLV(e.lvs));
      if r.Ok? {
        MoreAssign(p, fuel, more, e.lvs, r.value, env, o.heap, ctx);
      }
    }
  }

  lemma MoreOpAssign(p: Program, fuel: nat, more: nat, e: Expr, env: Env, h: Heap, ctx: Ctx)
    requires e.OpAssign? && fuel <= more
    ensures Same(EvalOpAssign(p, fuel, e, env, h, ctx), EvalOpAssign(p, more, e, env, h, ctx))
    decreases fuel, e, 1
  {
    hide Eval, EvalList, EvalReverse, EvalTarget, EvalStore, EvalAssign, Invoke;
    MoreTarget(p, fuel, more, e.lv, env, h, ctx);
    var o := EvalTarget(p, fuel, e.lv, env, h, ctx);
    if o.Normal? {
      MoreExpr(p, fuel, more, e.rhs, env, o.heap, ctx);
    }
  }

  lemma MoreCall(p: Program, fuel: nat, more: nat, e: Expr, env: Env, h: Heap, ctx: Ctx)
    requires e.Call? && fuel <= more
    ensures Same(EvalCall(p, fuel, e, env, h, ctx), EvalCall(p, more, e, env, h, ctx))
    decreases fuel, e, 1
  {
    hide Eval, EvalList, EvalReverse, EvalTarget, EvalStore, EvalAssign, Invoke;
    MoreExpr(p, fuel, more, e.f, env, h, ctx);
    var o1 := Eval(p, fuel, e.f, env, h, ctx);
    if o1.Normal? {
      MoreList(p, fuel, more, e.args, env, o1.heap, ctx);
      var o2 := EvalList(p, fuel, e.args, env, o1.heap, ctx);
      if o2.Normal? {
        MoreInvoke(p, fuel, more, e, EnterCall(p.params, o2.heap, Top(o1), None, o2.vals));
      }
    }
  }

  lemma MoreMethodCall(p: Program, fuel: nat, more: nat, e: Expr, env: Env, h: Heap, ctx: Ctx)
    requires e.MethodCall? && fuel <= more
    ensures Same(EvalMethodCall(p, fuel, e, env, h, ctx), EvalMethodCall(p, more, e, env, h, ctx))
    decreases fuel, e, 1
  {
    hide Eval, EvalList, EvalReverse, EvalTarget, EvalStore, EvalAssign, Invoke;
    MoreExpr(p, fuel, more, e.obj, env, h, ctx);
    var o1 := Eval(p, fuel, e.obj, env, h, ctx);
    if o1.Normal? && GetMember(o1.heap, Top(o1), e.field).Ok? {
      var f := GetMember(o1.heap, Top(o1), e.field).value;
      MoreList(p, fuel, more, e.args, env, o1.heap, ctx);
      var o2 := EvalList(p, fuel, e.args, env, o1.heap, ctx);
      if o2.Normal? {
        MoreInvoke(p, fuel, more, e, EnterCall(p.params, o2.heap, f, Some(Top(o1)), o2.vals));
      }
    }
  }

  lemma MoreNamedCall(p: Program, fuel: nat, more: nat, e: Expr, env: Env, h: Heap, ctx: Ctx)
    requires e.NamedCall? && fuel <= more
    ensures Same(EvalNamedCall(p, fuel, e, env, h, ctx), EvalNamedCall(p, more, e, env, h, ctx))
    decreases fuel, e, 1
  {
    hide Eval, EvalList, EvalReverse, EvalTarget, EvalStore, EvalAssign, Invoke;
    MoreExpr(p, fuel, more, e.f, env, h, ctx);
    var o1 := Eval(p, fuel, e.f, env, h, ctx);
    if o1.Normal? {
      MoreExpr(p, fuel, more, e.named, env, o1.heap, ctx);
      var o2 := Eval(p, fuel, e.named, env, o1.heap, ctx);
      if o2.Normal? {
        MoreInvoke(p, fuel, more, e, EnterNamed(p.host, p.params, o2.heap, Top(o1), None, Top(o2)));
      }
    }
  }

  lemma MoreNamedMethodCall(p: Program, fuel: nat, more: nat, e: Expr, env: Env, h: Heap, ctx: Ctx)
    requires e.NamedMethodCall? && fuel <= more
    ensures Same(EvalNamedMethodCall(p, fuel, e, env, h, ctx), EvalNamedMethodCall(p, more, e, env, h, ctx))
    decreases fuel, e, 1
  {
    hide Eval, EvalList, EvalReverse, EvalTarget, EvalStore, EvalAssign, Invoke;
    MoreExpr(p, fuel, more, e.obj, env, h, ctx);
    var o1 := Eval(p, fuel, e.obj, env, h, ctx);
    if o1.Normal? && GetMember(o1.heap, Top(o1), e.field).Ok? {
      var f := GetMember(o1.heap, Top(o1), e.field).value;
      MoreExpr(p, fuel, more, e.named, env, o1.heap, ctx);
      var o2 := Eval(p, fuel, e.named, env, o1.heap, ctx);
      if o2.Normal? {
        MoreInvoke(p, fuel, more, e, EnterNamed(p.host, p.params, o2.heap, f, Some(Top(o1)), Top(o2)));
      }
    }
  }

  lemma MoreForEach(p: Program, fuel: nat, more: nat, e: Expr, env: Env, h: Heap, ctx: Ctx)
    requires e.ForEach? && fuel <= more
    ensures Same(EvalForEach(p, fuel, e, env, h, ctx), EvalForEach(p, more, e, env, h, ctx))
    decreases fuel, e, 1
  {
    hide Eval, EvalEach;
    MoreExpr(p, fuel, more, e.vec, env, h, ctx);
    var o := Eval(p, fuel, e.vec, env, h, ctx);
    if o.Normal? {
      MoreEach(p, fuel, more, e, Top(o), 0, env, o.heap, ctx);
    }
  }

  lemma MoreLoop(p: Program, fuel: nat, more: nat, e: Expr, env: Env, h: Heap, ctx: Ctx)
    requires e.Loop? && fuel <= more
    ensures Same(EvalLoop(p, fuel, e, env, h, ctx), EvalLoop(p, more, e, env, h, ctx))
    decreases fuel, e, 1
  {
    hide Eval, EvalUpdate;
    if fuel > 0 {
      MoreExpr(p, fuel, more, e.test, env, h, ctx + [Scope(e.tag, false)]);
      var o1 := Eval(p, fuel, e.test, env, h, ctx + [Scope(e.tag, false)]);
      if o1.Normal? {
        MoreExpr(p, fuel, more, e.body, env, o1.heap, ctx + [Scope(e.tag, true)]);
        var o2 := Eval(p, fuel, e.body, env, o1.heap, ctx + [Scope(e.tag, true)]);
        MoreUpdate(p, fuel, more, e, env, HeapOf(o2), ctx);
      }
    }
  }

  lemma MoreUpdate(p: Program, fuel: nat, more: nat, e: Expr, env: Env, h: Heap, ctx: Ctx)
    requires e.Loop? && fuel <= more
    ensures Same(EvalUpdate(p, fuel, e, env, h, ctx), EvalUpdate(p, more, e, env, h, ctx))
    decreases fuel, e, 0
  {
    hide Eval, EvalLoop;
    if fuel > 0 {
      match e.update
      case None => MoreLoop(p, fuel - 1, more - 1, e, env, h, ctx);
      case Some(u) =>
        MoreExpr(p, fuel, more, u, env, h, ctx + [Scope(e.tag, true)]);
        var o := Eval(p, fuel, u, env, h, ctx + [Scope(e.tag, true)]);
        if o.Normal? {
          MoreLoop(p, fuel - 1, more - 1, e, env, o.heap, ctx);
        } else {
          MoreUpdate(p, fuel - 1, more - 1, e, env, HeapOf(o), ctx);
        }
    }
  }

  lemma MoreEach(p: Program, fuel: nat, more: nat, e: Expr, vec: Value, i: nat, env: Env, h: Heap, ctx: Ctx)
    requires e.ForEach? && fuel <= more
    ensures Same(EvalEach(p, fuel, e, vec, i, env, h, ctx), EvalEach(p, more, e, vec, i, env, h, ctx))
    decreases fuel, e, 0
  {
    hide Eval, EvalStore, EachItem;
    if fuel > 0 && EachItem(h, vec, i, e.useIndex).Ok? {
      var item := EachItem(h, vec, i, e.useIndex).value;
      MoreStore(p, fuel, more, e.lv, item, env, h, ctx + [Scope(e.tag, false)]);
      var o1 := EvalStore(p, fuel, e.lv, item, env, h, ctx + [Scope(e.tag, false)]);
      if o1.Normal? {
        MoreExpr(p, fuel, more, e.body, env, o1.heap, ctx + [Scope(e.tag, true)]);
        var o2 := Eval(p, fuel, e.body, env, o1.heap, ctx + [Scope(e.tag, true)]);
        MoreEach(p, fuel - 1, more - 1, e, vec, i + 1, env, HeapOf(o2), ctx);
      }
    }
  }

  lemma MoreInvoke(p: Program, fuel: nat, more: nat, call: Expr, r: Res<Entry>)
    requires fuel <= more
    ensures Same(Invoke(p, fuel, call, r), Invoke(p, more, call, r))
    decreases fuel, call, 0
  {
    hide Eval;
    if fuel > 0 && r.Ok? && r.value.code < |p.bodies| {
      MoreExpr(p, fuel - 1, more - 1, p.bodies[r.value.code], r.value.env, r.value.heap, []);
    }
  }

  lemma MoreList(p: Program, fuel: nat, more: nat, es: Exprs, env: Env, h: Heap, ctx: Ctx)
    requires fuel <= more
    ensures Same(EvalList(p, fuel, es, env, h, ctx), EvalList(p, more, es, env, h, ctx))
    decreases fuel, es, 0
  {
    hide Eval;
    if es.More? {
      MoreExpr(p, fuel, more, es.head, env, h, ctx);
      var o := Eval(p, fuel, es.head, env, h, ctx);
      if o.Normal? {
        MoreList(p, fuel, more, es.tail, env, o.heap, ctx);
      }
    }
  }

  lemma MoreReverse(p: Program, fuel: nat, more: nat, es: Exprs, env: Env, h: Heap, ctx: Ctx)
    requires fuel <= more
    ensures Same(EvalReverse(p, fuel, es, env, h, ctx), EvalReverse(p, more, es, env, h, ctx))
    decreases fuel, es, 0
  {
    hide Eval;
    if es.More? {
      MoreReverse(p, fuel, more, es.tail, env, h, ctx);
      var o := EvalReverse(p, fuel, es.tail, env, h, ctx);
      if o.Normal? {
        MoreExpr(p, fuel, more, es.head, env, o.heap, ctx);
      }
    }
  }

  lemma MoreTarget(p: Program, fuel: nat, more: nat, lv: LValue, env: Env, h: Heap, ctx: Ctx)
    requires fuel <= more
    ensures Same(EvalTarget(p, fuel, lv, env, h, ctx), EvalTarget(p, more, lv, env, h, ctx))
    decreases fuel, lv, 0
  {
    hide Eval;
    match lv
    case LMember(obj, _) => MoreExpr(p, fuel, more, obj, env, h, ctx);
    case LIndex(box, key) =>
      MoreExpr(p, fuel, more, box, env, h, ctx);
      var o := Eval(p, fuel, box, env, h, ctx);
      if o.Normal? {
        MoreExpr(p, fuel, more, key, env, o.heap, ctx);
      }
    case _ =>
  }

  lemma MoreStore(p: Program, fuel: nat, more: nat, lv: LValue, v: Value, env: Env, h: Heap, ctx: Ctx)
    requires fuel <= more
    ensures Same(EvalStore(p, fuel, lv, v, env, h, ctx), EvalStore(p, more, lv, v, env, h, ctx))
    decreases fuel, lv, 1
  {
    hide EvalTarget, Store;
    MoreTarget(p, fuel, more, lv, env, h, ctx);
  }

  lemma MoreAssign(p: Program, fuel: nat, more: nat, lvs: LValues, vals: seq<Value>, env: Env, h: Heap, ctx: Ctx)
    requires fuel <= more && |vals| == CountLV(lvs)
    ensures Same(EvalAssign(p, fuel, lvs, vals, env, h, ctx), EvalAssign(p, more, lvs, vals, env, h, ctx))
    decreases fuel, lvs, 0
  {
    hide EvalStore;
    var v := vals[|vals| - 1];
    MoreStore(p, fuel, more, lvs.lv, v, env, h, ctx);
    var o := EvalStore(p, fuel, lvs.lv, v, env, h, ctx);
    if lvs.MoreLV? && o.Normal? {
      MoreAssign(p, fuel, more, lvs.rest, vals[..|vals| - 1], env, o.heap, ctx);
    }
  }

  lemma MoreOperators(p: Program, fuel: nat, more: nat, e: Expr, env: Env, h: Heap, ctx: Ctx)
    requires e.Unary? || e.Binary? || e.HashAppend? || e.Member? || e.And? || e.Or? || e.Cond? || e.Semi? ||
        e.Return?
    requires fuel <= more
    ensures Same(Eval(p, fuel, e, env, h, ctx), Eval(p, more, e, env, h, ctx))
    decreases fuel, e, 3
  {
    hide Same, EvalBinary, EvalCond, EvalHashAppend, EvalMember, EvalReturn, EvalSemi, EvalShort, EvalUnary;
    match e
    case Unary(_, _) => MoreUnary(p, fuel, more, e, env, h, ctx);
    case Binary(_, _, _) => MoreBinary(p, fuel, more, e, env, h, ctx);
    case HashAppend(_, _, _) => MoreHashAppend(p, fuel, more, e, env, h, ctx);
    case Member(_, _) => MoreMember(p, fuel, more, e, env, h, ctx);
    case And(_, _) => MoreShort(p, fuel, more, e, env, h, ctx);
    case Or(_, _) => MoreShort(p, fuel, more, e, env, h, ctx);
    case Cond(_, _, _) => MoreCond(p, fuel, more, e, env, h, ctx);
    case Semi(_, _) => MoreSemi(p, fuel, more, e, env, h, ctx);
    case Return(_) => MoreReturn(p, fuel, more, e, env, h, ctx);
  }

  lemma MoreStatements(p: Program, fuel: nat, more: nat, e: Expr, env: Env, h: Heap, ctx: Ctx)
    requires e.Assign? || e.OpAssign? || e.MultiAssign? || e.Unpack? || e.Loop? || e.ForEach?
    requires fuel <= more
    ensures Same(Eval(p, fuel, e, env, h, ctx), Eval(p, more, e, env, h, ctx))
    decreases fuel, e, 3
  {
    hide Same, EvalForEach, EvalLoop, EvalMultiAssign, EvalOpAssign, EvalPlainAssign, EvalUnpack;
    match e
    case Assign(_, _) => MorePlainAssign(p, fuel, more, e, env, h, ctx);
    case OpAssign(_, _, _) => MoreOpAssign(p, fuel, more, e, env, h, ctx);
    case MultiAssign(_, _) => MoreMultiAssign(p, fuel, more, e, env, h, ctx);
    case Unpack(_, _) => MoreUnpack(p, fuel, more, e, env, h, ctx);
    case Loop(_, _, _, _) => MoreLoop(p, fuel, more, e, env, h, ctx);
    case ForEach(_, _, _, _, _) => MoreForEach(p, fuel, more, e, env, h, ctx);
  }

  lemma MoreCalls(p: Program, fuel: nat, more: nat, e: Expr, env: Env, h: Heap, ctx: Ctx)
    requires e.Call? || e.MethodCall? || e.NamedCall? || e.NamedMethodCall?
    requires fuel <= more
    ensures Same(Eval(p, fuel, e, env, h, ctx), Eval(p, more, e, env, h, ctx))
    decreases fuel, e, 3
  {
    hide Same, EvalCall, EvalMethodCall, EvalNamedCall, EvalNamedMethodCall;
    match e
    case Call(_, _) => MoreCall(p, fuel, more, e, env, h, ctx);
    case MethodCall(_, _, _) => MoreMethodCall(p, fuel, more, e, env, h, ctx);
    case NamedCall(_, _) => MoreNamedCall(p, fuel, more, e, env, h, ctx);
    case NamedMethodCall(_, _, _) => MoreNamedMethodCall(p, fuel, more, e, env, h, ctx);
  }

  /** An end is the same end with any more fuel: of every expression, in every
      environment and heap, inside any loops. */
  lemma {:induction false} MoreExpr(p: Program, fuel: nat, more: nat, e: Expr, env: Env, h: Heap, ctx: Ctx)
    requires fuel <= more
    ensures Same(Eval(p, fuel, e, env, h, ctx), Eval(p, more, e, env, h, ctx))
    decreases fuel, e, 4
  {
    if IsLeaf(e) || e.Break? || e.Continue? {
    } else {
      hide Eval, Same;
      if e.Call? || e.MethodCall? || e.NamedCall? || e.NamedMethodCall? {
        MoreCalls(p, fuel, more, e, env, h, ctx);
      } else if e.Assign? || e.OpAssign? || e.MultiAssign? || e.Unpack? || e.Loop? || e.ForEach? {
        MoreStatements(p, fuel, more, e, env, h, ctx);
      } else {
        MoreOperators(p, fuel, more, e, env, h, ctx);
      }
    }
  }

  /** Two ends of one evaluation are the same end, whatever the amounts of fuel. */
  lemma FuelIsOnlyABound(p: Program, fuel: nat, more: nat, e: Expr, env: Env, h: Heap, ctx: Ctx)
    requires !Eval(p, fuel, e, env, h, ctx).Timeout? && !Eval(p, more, e, env, h, ctx).Timeout?
    ensures Eval(p, fuel, e, env, h, ctx) == Eval(p, more, e, env, h, ctx)
  {
    hide Eval;
    if fuel <= more {
      MoreExpr(p, fuel, more, e, env, h, ctx);
    } else {
      MoreExpr(p, more, fuel, e, env, h, ctx);
    }
  }
}
