/** What the constructs of the language yield, whatever their parts do. */
module Laws {
  import opened Basics
  import opened Values
  import opened Syntax
  import opened Semantics

  /** The value of a `foreach` or `forindex` that comes to its end, or is broken off, is the
      vector its header evaluated to. */
  lemma ForEachYieldsItsVector(p: Program, fuel: nat, e: Expr, env: Env, h: Heap, ctx: Ctx)
    requires e.ForEach? && Eval(p, fuel, e, env, h, ctx).Normal?
    ensures Eval(p, fuel, e.vec, env, h, ctx).Normal?
    ensures Eval(p, fuel, e, env, h, ctx).vals == Eval(p, fuel, e.vec, env, h, ctx).vals
  {
    var o := Eval(p, fuel, e.vec, env, h, ctx);
    EachYieldsItsVector(p, fuel, e, Top(o), 0, env, o.heap, ctx);
  }

  lemma {:induction false} EachYieldsItsVector(p: Program, fuel: nat, e: Expr, vec: Value, i: nat, env: Env, h: Heap,
      ctx: Ctx)
    requires e.ForEach? && EvalEach(p, fuel, e, vec, i, env, h, ctx).Normal?
    ensures EvalEach(p, fuel, e, vec, i, env, h, ctx).vals == [vec]
  {
    hide Eval, EvalStore;
    var item := EachItem(h, vec, i, e.useIndex).value;
    if item != End {
      var o1 := EvalStore(p, fuel, e.lv, item, env, h, ctx + [Scope(e.tag, false)]);
      var o2 := Eval(p, fuel, e.body, env, o1.heap, ctx + [Scope(e.tag, true)]);
      if o2.Normal? || o2 == Cont(|ctx|, HeapOf(o2)) {
        EachYieldsItsVector(p, fuel - 1, e, vec, i + 1, env, HeapOf(o2), ctx);
      }
    }
  }

  /** The value of a `while` or `for` is nil, however it ends. */
  lemma {:induction false} LoopYieldsNil(p: Program, fuel: nat, e: Expr, env: Env, h: Heap, ctx: Ctx)
    requires e.Loop? && EvalLoop(p, fuel, e, env, h, ctx).Normal?
    ensures EvalLoop(p, fuel, e, env, h, ctx).vals == [Nil]
    decreases fuel, 1
  {
    hide Eval;
    var o1 := Eval(p, fuel, e.test, env, h, ctx + [Scope(e.tag, false)]);
    if Boolify(p.host, Top(o1)).value {
      var o2 := Eval(p, fuel, e.body, env, o1.heap, ctx + [Scope(e.tag, true)]);
      if o2.Normal? || o2 == Cont(|ctx|, HeapOf(o2)) {
        UpdateYieldsNil(p, fuel, e, env, HeapOf(o2), ctx);
      }
    }
  }

  lemma {:induction false} UpdateYieldsNil(p: Program, fuel: nat, e: Expr, env: Env, h: Heap, ctx: Ctx)
    requires e.Loop? && EvalUpdate(p, fuel, e, env, h, ctx).Normal?
    ensures EvalUpdate(p, fuel, e, env, h, ctx).vals == [Nil]
    decreases fuel, 0
  {
    hide Eval, EvalLoop;
    if e.update.None? {
      LoopYieldsNil(p, fuel - 1, e, env, h, ctx);
    } else {
      var o1 := Eval(p, fuel, e.update.value, env, h, ctx + [Scope(e.tag, true)]);
      if o1.Normal? {
        LoopYieldsNil(p, fuel - 1, e, env, o1.heap, ctx);
      } else if o1 == Cont(|ctx|, HeapOf(o1)) {
        UpdateYieldsNil(p, fuel - 1, e, env, o1.heap, ctx);
      }
    }
  }

  /** A list assignment stores its last value first, in the first target, and yields the one stored last. */
  lemma {:induction false} AssignYieldsFirstValue(p: Program, fuel: nat, lvs: LValues, vals: seq<Value>, env: Env,
      h: Heap, ctx: Ctx)
    requires |vals| == CountLV(lvs) && EvalAssign(p, fuel, lvs, vals, env, h, ctx).Normal?
    ensures EvalAssign(p, fuel, lvs, vals, env, h, ctx).vals == [vals[0]]
    decreases lvs
  {
    hide EvalTarget, Store;
    if lvs.MoreLV? {
      var o := EvalStore(p, fuel, lvs.lv, vals[|vals| - 1], env, h, ctx);
      AssignYieldsFirstValue(p, fuel, lvs.rest, vals[..|vals| - 1], env, o.heap, ctx);
    }
  }

  /** `x op= e` combines what `x` was before `e` ran with the value of `e`. */
  lemma OpAssignReadsFirst(p: Program, fuel: nat, e: Expr, env: Env, h: Heap, ctx: Ctx)
    requires e.OpAssign? && e.lv.LSym? && Eval(p, fuel, e, env, h, ctx).Normal?
    ensures GetLocal(p.host, h, env, Name(env.names, e.lv.name)).Ok? && Eval(p, fuel, e.rhs, env, h, ctx).Normal?
    ensures var o := Eval(p, fuel, e.rhs, env, h, ctx);
      var r := ApplyBinary(p.host, e.op, o.heap, GetLocal(p.host, h, env, Name(env.names, e.lv.name)).value, o.vals[0]);
      r.Ok? && Eval(p, fuel, e, env, h, ctx).vals == [r.value.0]
  {
    hide ApplyBinary, GetLocal;
    TargetOfSymbol(p, fuel, e.lv, env, h, ctx);
    assert Eval(p, fuel, e, env, h, ctx) == EvalOpAssign(p, fuel, e, env, h, ctx);
  }

  lemma TargetOfSymbol(p: Program, fuel: nat, lv: LValue, env: Env, h: Heap, ctx: Ctx)
    requires lv.LSym?
    ensures var x := Name(env.names, lv.name);
      && EvalTarget(p, fuel, lv, env, h, ctx) == Normal([x], h)
      && Load(lv, env, h, [x], p.host) == GetLocal(p.host, h, env, x)
  {
  }

  // ----- break and continue -----

  /** Without a label they are bound for the innermost loop, once its body is entered. */
  lemma InnermostLoopIsMeant(p: Program, fuel: nat, env: Env, h: Heap, ctx: Ctx, s: Scope)
    ensures Eval(p, fuel, Break(None), env, h, ctx + [s]) == Brk(|ctx|, h)
    ensures Eval(p, fuel, Continue(None), env, h, ctx + [s]) == Cont(|ctx|, h)
    ensures WellFormed(Break(None), ctx + [s]) <==> s.open
    ensures WellFormed(Continue(None), ctx + [s]) <==> s.open
  {
    ResolveMeans(ctx + [s], None, |ctx|);
  }

  /** With a label they are bound for the innermost loop of that label. */
  lemma LabelledLoopIsMeant(p: Program, fuel: nat, name: string, env: Env, h: Heap, ctx: Ctx, j: nat)
    requires j < |ctx| && ctx[j].tag == Some(name) && forall k :: j < k < |ctx| ==> ctx[k].tag != Some(name)
    ensures Eval(p, fuel, Break(Some(name)), env, h, ctx) == Brk(j, h)
    ensures Eval(p, fuel, Continue(Some(name)), env, h, ctx) == Cont(j, h)
    ensures WellFormed(Break(Some(name)), ctx) <==> ctx[j].open
    ensures WellFormed(Continue(Some(name)), ctx) <==> ctx[j].open
  {
    assert Means(ctx, Some(name), j);
    ResolveMeans(ctx, Some(name), j);
  }

  /** Outside every loop, or with a label that no loop around has, they are errors. */
  lemma NoLoopIsMeant(p: Program, fuel: nat, target: Option<string>, env: Env, h: Heap, ctx: Ctx)
    requires if target.None? then ctx == [] else forall k :: 0 <= k < |ctx| ==> ctx[k].tag != target
    ensures Eval(p, fuel, Break(target), env, h, ctx).Fail? && Eval(p, fuel, Continue(target), env, h, ctx).Fail?
    ensures !WellFormed(Break(target), ctx) && !WellFormed(Continue(target), ctx)
  {
    NoneMeant(ctx, target);
  }
}
