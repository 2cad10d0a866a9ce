/** What some programs of the language compute, on every input. */
module Programs {
  import opened Basics
  import opened Values
  import opened Syntax
  import opened Semantics
  import opened Machine
  import opened Simulation
  import opened Correctness
  import opened Laws
  import opened Binding
  import opened Operators

  // ----- leaving loops -----

  /** `while(1) body`, when its first round does not come to its end and does not go on. */
  lemma FirstRound(p: Program, fuel: nat, tag: Option<string>, body: Expr, env: Env, h: Heap, ctx: Ctx)
    requires fuel > 0
    ensures var o := Eval(p, fuel, body, env, h, ctx + [Scope(tag, true)]);
      var r := Eval(p, fuel, Loop(tag, NumLit(1.0), None, body), env, h, ctx);
      && (o.Brk? && o.loop == |ctx| ==> r == Normal([Nil], o.heap))
      && (o.Ret? || (o.Brk? && o.loop < |ctx|) || (o.Cont? && o.loop < |ctx|) ==> r == o)
  {
    var e := Loop(tag, NumLit(1.0), None, body);
    assert Eval(p, fuel, e, env, h, ctx) == EvalLoop(p, fuel, e, env, h, ctx);
    assert Eval(p, fuel, e.test, env, h, ctx + [Scope(tag, false)]) == Normal([Num(1.0)], h);
  }

  lemma ReturnNumber(p: Program, fuel: nat, x: real, env: Env, h: Heap, ctx: Ctx)
    ensures Eval(p, fuel, Return(NumLit(x)), env, h, ctx) == Ret(Num(x), h)
  {
    assert Eval(p, fuel, NumLit(x), env, h, ctx) == Normal([Num(x)], h);
  }

  function Nested(tag: Option<string>, target: Option<string>): Expr {
    Loop(tag, NumLit(1.0), None, Semi(Loop(None, NumLit(1.0), None, Break(target)), Return(NumLit(5.0))))
  }

  /** `while(1) { while(1) { break; } return 5; }` returns 5. */
  lemma BreakLeavesInnerLoop(p: Program, fuel: nat, env: Env, h: Heap, ctx: Ctx)
    requires fuel > 0
    ensures Eval(p, fuel, Nested(None, None), env, h, ctx) == Ret(Num(5.0), h)
  {
    var inside := ctx + [Scope(None, true)];
    var inner := Loop(None, NumLit(1.0), None, Break(None));
    var body := Semi(inner, Return(NumLit(5.0)));
    InnermostLoopIsMeant(p, fuel, env, h, inside, Scope(None, true));
    FirstRound(p, fuel, None, Break(None), env, h, inside);
    ReturnNumber(p, fuel, 5.0, env, h, inside);
    assert Eval(p, fuel, body, env, h, inside) == EvalSemi(p, fuel, body, env, h, inside);
    FirstRound(p, fuel, None, body, env, h, ctx);
  }

  /** `while(name; 1) { while(1) { break name; } return 5; }` does not return: its value is nil. */
  lemma BreakLeavesLabelledLoop(p: Program, fuel: nat, name: string, env: Env, h: Heap, ctx: Ctx)
    requires fuel > 0
    ensures Eval(p, fuel, Nested(Some(name), Some(name)), env, h, ctx) == Normal([Nil], h)
  {
    var inside := ctx + [Scope(Some(name), true)];
    var inner := Loop(None, NumLit(1.0), None, Break(Some(name)));
    var body := Semi(inner, Return(NumLit(5.0)));
    LabelledLoopIsMeant(p, fuel, name, env, h, inside + [Scope(None, true)], |ctx|);
    FirstRound(p, fuel, None, Break(Some(name)), env, h, inside);
    assert Eval(p, fuel, body, env, h, inside) == EvalSemi(p, fuel, body, env, h, inside);
    FirstRound(p, fuel, Some(name), body, env, h, ctx);
  }

  /** The machine running the compiled program stops with 5. */
  lemma MachineLeavesInnerLoop(p: Program, m: Image, f: nat, env: Env, h: Heap)
    requires Linked(p, m) && f < |p.bodies| && env.names == p.params[f].names && p.bodies[f] == Nested(None, None)
    ensures exists n: nat :: Steps(m, n, Start(f, env, h)) == Done(Num(5.0), h)
  {
    hide Eval, Step, Linked, Steps, Nested;
    BreakLeavesInnerLoop(p, 1, env, h, []);
    assert StatusOf(Meaning(p, 1, f, env, h)) == Done(Num(5.0), h);
    SameResults(p, m, f, env, h, Done(Num(5.0), h));
  }

  // ----- local variables -----

  /** The local variable `x` is entered under its own object, with this value. */
  ghost predicate Bound(h: Heap, env: Env, x: string, v: Value) {
    && env.locals < |h| && h[env.locals].HashObj? && Str(x, Interned) in h[env.locals].members
    && h[env.locals].members[Str(x, Interned)] == Cell(Str(x, env.names(x)), v)
  }

  /** The heap with another value of the local variable `x`. */
  function Assigned(h: Heap, env: Env, x: string, v: Value): Heap
    requires env.locals < |h| && h[env.locals].HashObj?
  {
    h[env.locals := HashObj(h[env.locals].members[Str(x, Interned) := Cell(Str(x, env.names(x)), v)])]
  }

  lemma Reads(host: Host, h: Heap, env: Env, x: string, v: Value)
    requires Bound(h, env, x, v)
    ensures GetLocal(host, h, env, Name(env.names, x)) == Ok(v)
  {
  }

  lemma Writes(h: Heap, env: Env, x: string, u: Value, v: Value)
    requires Bound(h, env, x, u)
    ensures SetSymbol(h, env, Name(env.names, x), v) == Assigned(h, env, x, v)
  {
  }

  /** `x` is no local variable yet, or it is entered under its own object. */
  ghost predicate Unbound(h: Heap, env: Env, x: string) {
    && env.locals < |h| && h[env.locals].HashObj?
    && (Str(x, Interned) in h[env.locals].members ==>
          h[env.locals].members[Str(x, Interned)].key == Str(x, env.names(x)))
  }

  lemma RunSymbol(p: Program, fuel: nat, x: string, v: Value, env: Env, h: Heap, ctx: Ctx)
    requires Bound(h, env, x, v)
    ensures Eval(p, fuel, Sym(x), env, h, ctx) == Normal([v], h)
  {
    hide GetLocal;
    Reads(p.host, h, env, x, v);
  }

  /** `var x = v` */
  lemma RunDeclare(p: Program, fuel: nat, x: string, v: Value, env: Env, h: Heap, ctx: Ctx)
    requires Unbound(h, env, x)
    ensures EvalStore(p, fuel, LVar(x), v, env, h, ctx) == Normal([v], Assigned(h, env, x, v))
  {
    assert EvalTarget(p, fuel, LVar(x), env, h, ctx) == Normal([Name(env.names, x)], h);
  }

  /** `s += e` for a number `s`, when `e` yields a number and leaves the heap alone. */
  lemma RunIncrease(p: Program, fuel: nat, s: string, t: real, e: Expr, d: real, env: Env, h: Heap, ctx: Ctx)
    requires Bound(h, env, s, Num(t)) && Eval(p, fuel, e, env, h, ctx) == Normal([Num(d)], h)
    ensures Eval(p, fuel, OpAssign(Plus, LSym(s), e), env, h, ctx)
            == Normal([Num(t + d)], Assigned(h, env, s, Num(t + d)))
  {
    hide GetLocal, SetSymbol, Eval;
    var x := Name(env.names, s);
    TargetOfSymbol(p, fuel, LSym(s), env, h, ctx);
    Reads(p.host, h, env, s, Num(t));
    Writes(h, env, s, Num(t), Num(t + d));
    assert ApplyBinary(p.host, Plus, h, Num(t), Num(d)) == Ok((Num(t + d), h));
    assert Store(LSym(s), env, h, [x], Num(t + d), p.host) == Ok(Assigned(h, env, s, Num(t + d)));
    Increase(p, fuel, OpAssign(Plus, LSym(s), e), env, h, ctx);
  }

  lemma Increase(p: Program, fuel: nat, e: Expr, env: Env, h: Heap, ctx: Ctx)
    requires e.OpAssign?
    ensures Eval(p, fuel, e, env, h, ctx) == EvalOpAssign(p, fuel, e, env, h, ctx)
  {
    hide EvalOpAssign;
  }

  // ----- sums -----

  /** Nothing but the local variables in `xs` differs. */
  ghost predicate SameBut(h: Heap, g: Heap, a: nat, xs: set<string>) {
    && a < |h| == |g| && h[a].HashObj? && g[a].HashObj?
    && (forall i :: 0 <= i < |h| && i != a ==> g[i] == h[i])
    && (forall k :: (forall x :: x in xs ==> k != Str(x, Interned)) ==>
          (k in g[a].members <==> k in h[a].members) && (k in h[a].members ==> g[a].members[k] == h[a].members[k]))
  }

  function Sum(xs: seq<real>): real {
    if xs == [] then 0.0 else Sum(xs[..|xs| - 1]) + xs[|xs| - 1]
  }

  /** The numbers that the loop goes through: the elements, or the indices for `forindex`. */
  ghost predicate Items(h: Heap, v: Value, useIndex: bool, items: seq<real>) {
    && v.Vec? && v.addr < |h| && h[v.addr].VecObj? && |items| == |h[v.addr].elems|
    && forall i :: 0 <= i < |items| ==> if useIndex then items[i] == i as real else h[v.addr].elems[i] == Num(items[i])
  }

  function SumLoop(useIndex: bool, s: string, x: string, v: string): Expr {
    ForEach(None, useIndex, LVar(x), Sym(v), OpAssign(Plus, LSym(s), Sym(x)))
  }

  /** `foreach(var x; v) s += x` adds up the elements of the vector, and `forindex` its indices. */
  lemma LoopAddsUp(p: Program, fuel: nat, useIndex: bool, s: string, x: string, v: string, vec: Value, t: real,
      items: seq<real>, env: Env, h: Heap, ctx: Ctx)
    requires s != x && Bound(h, env, v, vec) && Bound(h, env, s, Num(t)) && Unbound(h, env, x)
    requires Items(h, vec, useIndex, items) && fuel > |items|
    ensures var o := Eval(p, fuel, SumLoop(useIndex, s, x, v), env, h, ctx);
      && o.Normal? && o.vals == [vec] && Bound(o.heap, env, s, Num(t + Sum(items)))
      && (items != [] ==> Bound(o.heap, env, x, Num(items[|items| - 1])))
      && SameBut(h, o.heap, env.locals, {s, x})
  {
    hide Eval, EvalEach;
    var e := SumLoop(useIndex, s, x, v);
    RunSymbol(p, fuel, v, vec, env, h, ctx);
    assert items[..0] == [];
    RestAddsUp(p, fuel, e, s, x, vec, t, items, 0, env, h, h, ctx);
    ForEachStarts(p, fuel, e, env, h, ctx);
  }

  lemma ForEachStarts(p: Program, fuel: nat, e: Expr, env: Env, h: Heap, ctx: Ctx)
    requires e.ForEach? && Eval(p, fuel, e.vec, env, h, ctx).Normal?
    ensures var o := Eval(p, fuel, e.vec, env, h, ctx);
            Eval(p, fuel, e, env, h, ctx) == EvalEach(p, fuel, e, o.vals[0], 0, env, o.heap, ctx)
  {
    hide EvalEach;
    assert Eval(p, fuel, e, env, h, ctx) == EvalForEach(p, fuel, e, env, h, ctx);
  }

  /** From the element `i` on, when the ones before it have been added up. */
  lemma {:induction false} RestAddsUp(p: Program, fuel: nat, e: Expr, s: string, x: string, vec: Value, t: real,
      items: seq<real>, i: nat, env: Env, h: Heap, g: Heap, ctx: Ctx)
    requires e.ForEach? && e.lv == LVar(x) && e.body == OpAssign(Plus, LSym(s), Sym(x)) && s != x
    requires i <= |items| && fuel > |items| - i && Items(h, vec, e.useIndex, items) && SameBut(h, g, env.locals, {s, x})
    requires Bound(g, env, s, Num(t + Sum(items[..i]))) && Unbound(g, env, x)
    requires i > 0 ==> Bound(g, env, x, Num(items[i - 1]))
    ensures var o := EvalEach(p, fuel, e, vec, i, env, g, ctx);
      && o.Normal? && o.vals == [vec] && Bound(o.heap, env, s, Num(t + Sum(items)))
      && (items != [] ==> Bound(o.heap, env, x, Num(items[|items| - 1])))
      && SameBut(h, o.heap, env.locals, {s, x})
    decreases |items| - i
  {
    hide Eval, EvalStore, EvalEach, SameBut, Bound;
    SameVector(h, g, env.locals, {s, x}, vec);
    if i == |items| {
      assert items[..i] == items;
      EachEnds(p, fuel, e, vec, i, env, g, ctx);
    } else {
      var g2 := OneMore(p, fuel, e, s, x, vec, t + Sum(items[..i]), items[i], i, env, g, ctx);
      assert items[..i + 1][..i] == items[..i];
      BoundIsUnbound(g2, env, x, Num(items[i]));
      SameAgain(h, g, g2, env.locals, {s, x});
      RestAddsUp(p, fuel - 1, e, s, x, vec, t, items, i + 1, env, h, g2, ctx);
    }
  }

  lemma SameVector(h: Heap, g: Heap, a: nat, xs: set<string>, vec: Value)
    requires SameBut(h, g, a, xs) && IsVec(h, vec)
    ensures vec.addr < |g| && g[vec.addr] == h[vec.addr]
  {
  }

  lemma SameAgain(h: Heap, g: Heap, k: Heap, a: nat, xs: set<string>)
    requires SameBut(h, g, a, xs) && SameBut(g, k, a, xs)
    ensures SameBut(h, k, a, xs)
  {
  }

  lemma BoundIsUnbound(h: Heap, env: Env, x: string, v: Value)
    requires Bound(h, env, x, v)
    ensures Unbound(h, env, x)
  {
  }

  lemma EachEnds(p: Program, fuel: nat, e: Expr, vec: Value, i: nat, env: Env, h: Heap, ctx: Ctx)
    requires e.ForEach? && fuel > 0 && IsVec(h, vec) && i >= |h[vec.addr].elems|
    ensures EvalEach(p, fuel, e, vec, i, env, h, ctx) == Normal([vec], h)
  {
  }

  /** One round adds one element to the sum. */
  lemma OneMore(p: Program, fuel: nat, e: Expr, s: string, x: string, vec: Value, sum: real, d: real, i: nat, env: Env,
      h: Heap, ctx: Ctx) returns (g: Heap)
    requires e.ForEach? && e.lv == LVar(x) && e.body == OpAssign(Plus, LSym(s), Sym(x)) && s != x && fuel > 0
    requires vec.Vec? && vec.addr < |h| && h[vec.addr].VecObj? && i < |h[vec.addr].elems|
    requires if e.useIndex then d == i as real else h[vec.addr].elems[i] == Num(d)
    requires Bound(h, env, s, Num(sum)) && Unbound(h, env, x)
    ensures EvalEach(p, fuel, e, vec, i, env, h, ctx) == EvalEach(p, fuel - 1, e, vec, i + 1, env, g, ctx)
    ensures Bound(g, env, s, Num(sum + d)) && Bound(g, env, x, Num(d)) && SameBut(h, g, env.locals, {s, x})
  {
    hide Eval, EvalStore;
    RunDeclare(p, fuel, x, Num(d), env, h, ctx + [Scope(e.tag, false)]);
    var h1 := Assigned(h, env, x, Num(d));
    var inside := ctx + [Scope(e.tag, true)];
    RunSymbol(p, fuel, x, Num(d), env, h1, inside);
    RunIncrease(p, fuel, s, sum, Sym(x), d, env, h1, inside);
    g := Assigned(h1, env, s, Num(sum + d));
  }

  // ----- counting -----

  function CountTest(i: string, n: nat): Expr { Binary(Lt, Sym(i), NumLit(n as real)) }

  function CountBody(s: string, i: string, k: nat, jump: Expr): Expr {
    Semi(Cond(Binary(Eq, Sym(i), NumLit(k as real)), jump, NilLit), OpAssign(Plus, LSym(s), Sym(i)))
  }

  function CountLoop(s: string, i: string, n: nat, k: nat, jump: Expr): Expr {
    Loop(None, CountTest(i, n), Some(OpAssign(Plus, LSym(i), NumLit(1.0))), CountBody(s, i, k, jump))
  }

  /** The numbers below `n` that are added: all but `k`, or those below `k`. */
  function Added(n: nat, k: nat, jump: Expr): real {
    if n == 0 then 0.0
    else if jump.Continue? then Added(n - 1, k, jump) + (if n - 1 == k then 0.0 else (n - 1) as real)
    else Added(n - 1, k, jump) + (if n - 1 >= k then 0.0 else (n - 1) as real)
  }

  /** `for(; i < n; i += 1) { if(i == k) continue; s += i; }` from `i` = 0 adds up the numbers below `n` other than
      `k`; with `break` instead, those below `n` and `k`. */
  lemma LoopCounts(p: Program, fuel: nat, s: string, i: string, n: nat, k: nat, jump: Expr, t: real, env: Env, h: Heap,
      ctx: Ctx)
    requires s != i && (jump == Continue(None) || jump == Break(None)) && fuel > n
    requires Bound(h, env, i, Num(0.0)) && Bound(h, env, s, Num(t))
    ensures var o := Eval(p, fuel, CountLoop(s, i, n, k, jump), env, h, ctx);
      && o.Normal? && o.vals == [Nil] && SameBut(h, o.heap, env.locals, {s, i})
      && Bound(o.heap, env, s, Num(t + Added(n, k, jump)))
      && Bound(o.heap, env, i, Num((if jump.Break? && k < n then k else n) as real))
  {
    hide EvalLoop, Bound, SameBut;
    SameAtFirst(h, env, i, Num(0.0), {s, i});
    RestCounts(p, fuel, s, i, n, k, jump, t, 0, env, h, h, ctx);
  }

  lemma SameAtFirst(h: Heap, env: Env, x: string, v: Value, xs: set<string>)
    requires Bound(h, env, x, v)
    ensures SameBut(h, h, env.locals, xs)
  {
  }

  lemma {:induction false} RestCounts(p: Program, fuel: nat, s: string, i: string, n: nat, k: nat, jump: Expr, t: real,
      j: nat, env: Env, h: Heap, g: Heap, ctx: Ctx)
    requires s != i && (jump == Continue(None) || jump == Break(None)) && j <= n && fuel > n - j
    requires (jump.Break? ==> j <= k) && SameBut(h, g, env.locals, {s, i})
    requires Bound(g, env, i, Num(j as real)) && Bound(g, env, s, Num(t + Added(j, k, jump)))
    ensures var o := EvalLoop(p, fuel, CountLoop(s, i, n, k, jump), env, g, ctx);
      && o.Normal? && o.vals == [Nil] && SameBut(h, o.heap, env.locals, {s, i})
      && Bound(o.heap, env, s, Num(t + Added(n, k, jump)))
      && Bound(o.heap, env, i, Num((if jump.Break? && k < n then k else n) as real))
    decreases n - j
  {
    hide Eval, EvalLoop, EvalUpdate, SameBut, Bound, CountTest, CountBody;
    TestCounts(p, fuel, i, n, j, env, g, ctx + [Scope(None, false)]);
    if j == n {
      LoopEnds(p, fuel, CountLoop(s, i, n, k, jump), env, g, ctx);
    } else if j == k && jump.Break? {
      SkipsOne(p, fuel, s, i, k, jump, env, g, ctx);
      LoopBreaks(p, fuel, CountLoop(s, i, n, k, jump), env, g, ctx);
      AddedBelow(n, k, jump);
    } else {
      var g2 := OneRound(p, fuel, s, i, n, k, jump, t + Added(j, k, jump), j, env, g, ctx);
      SameAgain(h, g, g2, env.locals, {s, i});
      RestCounts(p, fuel - 1, s, i, n, k, jump, t, j + 1, env, h, g2, ctx);
    }
  }

  lemma {:induction false} AddedBelow(n: nat, k: nat, jump: Expr)
    requires jump.Break? && k <= n
    ensures Added(n, k, jump) == Added(k, k, jump)
  {
    if k < n {
      AddedBelow(n - 1, k, jump);
    }
  }

  lemma RunBinary(p: Program, fuel: nat, op: BinOp, a: Expr, b: Expr, x: Value, y: Value, env: Env, h: Heap, ctx: Ctx)
    requires Eval(p, fuel, a, env, h, ctx) == Normal([x], h) && Eval(p, fuel, b, env, h, ctx) == Normal([y], h)
    ensures Eval(p, fuel, Binary(op, a, b), env, h, ctx) == LiftPair(ApplyBinary(p.host, op, h, x, y))
  {
    hide ApplyBinary;
    assert Eval(p, fuel, Binary(op, a, b), env, h, ctx) == EvalBinary(p, fuel, Binary(op, a, b), env, h, ctx);
  }

  lemma RunNumber(p: Program, fuel: nat, x: real, env: Env, h: Heap, ctx: Ctx)
    ensures Eval(p, fuel, NumLit(x), env, h, ctx) == Normal([Num(x)], h)
  {
  }

  lemma TestCounts(p: Program, fuel: nat, i: string, n: nat, j: nat, env: Env, h: Heap, ctx: Ctx)
    requires Bound(h, env, i, Num(j as real))
    ensures Eval(p, fuel, CountTest(i, n), env, h, ctx) == Normal([Num(if j < n then 1.0 else 0.0)], h)
  {
    hide Eval, Bound;
    RunSymbol(p, fuel, i, Num(j as real), env, h, ctx);
    RunNumber(p, fuel, n as real, env, h, ctx);
    RunBinary(p, fuel, Lt, Sym(i), NumLit(n as real), Num(j as real), Num(n as real), env, h, ctx);
  }

  lemma LoopEnds(p: Program, fuel: nat, e: Expr, env: Env, h: Heap, ctx: Ctx)
    requires e.Loop? && fuel > 0 && Eval(p, fuel, e.test, env, h, ctx + [Scope(e.tag, false)]) == Normal([Num(0.0)], h)
    ensures EvalLoop(p, fuel, e, env, h, ctx) == Normal([Nil], h)
  {
    hide Eval;
  }

  lemma LoopBreaks(p: Program, fuel: nat, e: Expr, env: Env, h: Heap, ctx: Ctx)
    requires e.Loop? && fuel > 0 && Eval(p, fuel, e.test, env, h, ctx + [Scope(e.tag, false)]) == Normal([Num(1.0)], h)
    requires Eval(p, fuel, e.body, env, h, ctx + [Scope(e.tag, true)]) == Brk(|ctx|, h)
    ensures EvalLoop(p, fuel, e, env, h, ctx) == Normal([Nil], h)
  {
    hide Eval;
  }

  /** The body runs to its end or goes on with the update, which runs to its end. */
  lemma LoopGoesOn(p: Program, fuel: nat, e: Expr, env: Env, h: Heap, h1: Heap, h2: Heap, ctx: Ctx)
    requires e.Loop? && e.update.Some? && fuel > 0
    requires Eval(p, fuel, e.test, env, h, ctx + [Scope(e.tag, false)]) == Normal([Num(1.0)], h)
    requires var o := Eval(p, fuel, e.body, env, h, ctx + [Scope(e.tag, true)]);
             o == Cont(|ctx|, h1) || (o.Normal? && o.heap == h1)
    requires var o := Eval(p, fuel, e.update.value, env, h1, ctx + [Scope(e.tag, true)]); o.Normal? && o.heap == h2
    ensures EvalLoop(p, fuel, e, env, h, ctx) == EvalLoop(p, fuel - 1, e, env, h2, ctx)
  {
    hide Eval;
    assert EvalUpdate(p, fuel, e, env, h1, ctx) == EvalLoop(p, fuel - 1, e, env, h2, ctx);
  }

  /** The branch that jumps, when `i` is `k`. */
  lemma SkipsOne(p: Program, fuel: nat, s: string, i: string, k: nat, jump: Expr, env: Env, h: Heap, ctx: Ctx)
    requires (jump == Continue(None) || jump == Break(None)) && Bound(h, env, i, Num(k as real))
    ensures Eval(p, fuel, CountBody(s, i, k, jump), env, h, ctx + [Scope(None, true)])
            == if jump.Break? then Brk(|ctx|, h) else Cont(|ctx|, h)
  {
    hide Bound, Eval;
    var inside := ctx + [Scope(None, true)];
    InnermostLoopIsMeant(p, fuel, env, h, ctx, Scope(None, true));
    Branch(p, fuel, i, k, k, jump, env, h, inside);
    SemiStarts(p, fuel, CountBody(s, i, k, jump), env, h, inside);
  }

  lemma Branch(p: Program, fuel: nat, i: string, j: nat, k: nat, jump: Expr, env: Env, h: Heap, ctx: Ctx)
    requires Bound(h, env, i, Num(j as real))
    ensures Eval(p, fuel, Cond(Binary(Eq, Sym(i), NumLit(k as real)), jump, NilLit), env, h, ctx)
            == Eval(p, fuel, if j == k then jump else NilLit, env, h, ctx)
  {
    hide Eval, Bound;
    RunSymbol(p, fuel, i, Num(j as real), env, h, ctx);
    RunNumber(p, fuel, k as real, env, h, ctx);
    RunBinary(p, fuel, Eq, Sym(i), NumLit(k as real), Num(j as real), Num(k as real), env, h, ctx);
    var e := Cond(Binary(Eq, Sym(i), NumLit(k as real)), jump, NilLit);
    CondStarts(p, fuel, e, j == k, env, h, ctx);
  }

  lemma CondStarts(p: Program, fuel: nat, e: Expr, b: bool, env: Env, h: Heap, ctx: Ctx)
    requires e.Cond? && Eval(p, fuel, e.test, env, h, ctx) == Normal([Num(if b then 1.0 else 0.0)], h)
    ensures Eval(p, fuel, e, env, h, ctx) == Eval(p, fuel, if b then e.thn else e.els, env, h, ctx)
  {
    assert Eval(p, fuel, e, env, h, ctx) == EvalCond(p, fuel, e, env, h, ctx);
  }

  lemma SemiStarts(p: Program, fuel: nat, e: Expr, env: Env, h: Heap, ctx: Ctx)
    requires e.Semi?
    ensures var o := Eval(p, fuel, e.first, env, h, ctx);
            Eval(p, fuel, e, env, h, ctx) == if o.Normal? then Eval(p, fuel, e.rest, env, o.heap, ctx) else o
  {
    assert Eval(p, fuel, e, env, h, ctx) == EvalSemi(p, fuel, e, env, h, ctx);
  }

  /** The body when it adds `i` to `s`, or goes on without. */
  lemma AddsOne(p: Program, fuel: nat, s: string, i: string, k: nat, jump: Expr, sum: real, j: nat, env: Env, h: Heap,
      ctx: Ctx)
    requires j != k && Bound(h, env, i, Num(j as real)) && Bound(h, env, s, Num(sum))
    ensures Eval(p, fuel, CountBody(s, i, k, jump), env, h, ctx)
            == Normal([Num(sum + j as real)], Assigned(h, env, s, Num(sum + j as real)))
  {
    hide Eval, Bound;
    Branch(p, fuel, i, j, k, jump, env, h, ctx);
    SemiStarts(p, fuel, CountBody(s, i, k, jump), env, h, ctx);
    RunNil(p, fuel, env, h, ctx);
    RunSymbol(p, fuel, i, Num(j as real), env, h, ctx);
    RunIncrease(p, fuel, s, sum, Sym(i), j as real, env, h, ctx);
  }

  lemma RunNil(p: Program, fuel: nat, env: Env, h: Heap, ctx: Ctx)
    ensures Eval(p, fuel, NilLit, env, h, ctx) == Normal([Nil], h)
  {
  }

  lemma AssignKeeps(h: Heap, env: Env, x: string, v: Value, y: string, w: Value, xs: set<string>)
    requires x != y && x in xs && Bound(h, env, y, w)
    ensures Bound(Assigned(h, env, x, v), env, x, v) && Bound(Assigned(h, env, x, v), env, y, w)
    ensures SameBut(h, Assigned(h, env, x, v), env.locals, xs)
  {
  }

  lemma OneRound(p: Program, fuel: nat, s: string, i: string, n: nat, k: nat, jump: Expr, sum: real, j: nat, env: Env,
      h: Heap, ctx: Ctx) returns (g: Heap)
    requires s != i && (jump == Continue(None) || jump == Break(None)) && j < n && fuel > 0
    requires jump.Continue? || j != k
    requires Bound(h, env, i, Num(j as real)) && Bound(h, env, s, Num(sum))
    ensures EvalLoop(p, fuel, CountLoop(s, i, n, k, jump), env, h, ctx)
            == EvalLoop(p, fuel - 1, CountLoop(s, i, n, k, jump), env, g, ctx)
    ensures Bound(g, env, i, Num((j + 1) as real)) && SameBut(h, g, env.locals, {s, i})
    ensures Bound(g, env, s, Num(sum + if j == k then 0.0 else j as real))
  {
    hide Eval, EvalLoop, EvalUpdate, CountTest, CountBody, Bound, SameBut;
    var inside := ctx + [Scope(None, true)];
    var xs := {s, i};
    TestCounts(p, fuel, i, n, j, env, h, ctx + [Scope(None, false)]);
    SameAtFirst(h, env, s, Num(sum), xs);
    var h1 := h;
    var more := sum;
    if j == k {
      SkipsOne(p, fuel, s, i, k, jump, env, h, ctx);
    } else {
      AddsOne(p, fuel, s, i, k, jump, sum, j, env, h, inside);
      more := sum + j as real;
      h1 := Assigned(h, env, s, Num(more));
      AssignKeeps(h, env, s, Num(more), i, Num(j as real), xs);
    }
    RunNumber(p, fuel, 1.0, env, h1, inside);
    RunIncrease(p, fuel, i, j as real, NumLit(1.0), 1.0, env, h1, inside);
    g := Assigned(h1, env, i, Num(j as real + 1.0));
    AssignKeeps(h1, env, i, Num(j as real + 1.0), s, Num(more), xs);
    SameAgain(h, h1, g, env.locals, xs);
    LoopGoesOn(p, fuel, CountLoop(s, i, n, k, jump), env, h, h1, g, ctx);
  }

  // ----- calls -----

  /** What a call in the program comes to, once the callee and the arguments are there. */
  lemma CallRuns(p: Program, fuel: nat, e: Expr, f: Value, vals: seq<Value>, env: Env, h: Heap, h1: Heap, h2: Heap,
      ctx: Ctx)
    requires e.Call? && Eval(p, fuel, e.f, env, h, ctx) == Normal([f], h1)
    requires EvalList(p, fuel, e.args, env, h1, ctx) == Normal(vals, h2)
    ensures Eval(p, fuel, e, env, h, ctx) == Invoke(p, fuel, e, EnterCall(p.params, h2, f, None, vals))
  {
    hide EnterCall, Invoke, EvalList;
    assert Eval(p, fuel, e, env, h, ctx) == EvalCall(p, fuel, e, env, h, ctx);
  }

  lemma BodyRuns(p: Program, fuel: nat, e: Expr, en: Entry, v: Value, h1: Heap)
    requires fuel > 0 && en.code < |p.bodies|
    requires Eval(p, fuel - 1, p.bodies[en.code], en.env, en.heap, []) == Normal([v], h1)
    ensures Invoke(p, fuel, e, Ok(en)) == Normal([v], h1)
  {
    hide Eval;
  }

  /** Function `c` is `func(x, y) { x - y }`. */
  ghost predicate Subtracts(p: Program, c: nat, x: string, y: string) {
    && c < |p.params| && c < |p.bodies| && x != y
    && p.params[c].args == [x, y] && p.params[c].opts == [] && !p.params[c].needVector
    && p.bodies[c] == Binary(Minus, Sym(x), Sym(y))
  }

  /** Called with two numbers it takes the second from the first. */
  lemma CallSubtracts(p: Program, fuel: nat, c: nat, x: string, y: string, f: string, fun: Value, a: real, b: real,
      env: Env, h: Heap, ctx: Ctx)
    requires Subtracts(p, c, x, y) && Bound(h, env, f, fun) && Closure(p.params, h, fun, c) && fuel > 0
    ensures var o := Eval(p, fuel, Call(Sym(f), More(NumLit(a), More(NumLit(b), NoExprs))), env, h, ctx);
            o.Normal? && o.vals == [Num(a - b)] && h < o.heap
  {
    hide Eval, EvalList, EnterCall, Invoke;
    var e := Call(Sym(f), More(NumLit(a), More(NumLit(b), NoExprs)));
    var vals := [Num(a), Num(b)];
    RunSymbol(p, fuel, f, fun, env, h, ctx);
    RunPair(p, fuel, a, b, env, h, ctx);
    CallRuns(p, fuel, e, fun, vals, env, h, h, h, ctx);
    CallStarts(p.params, h, fun, None, vals, c);
    CallBinds(p.params, h, fun, None, vals, c);
    var en := EnterCall(p.params, h, fun, None, vals).value;
    assert Binds(en.heap[|h|].members, en.env.names, p.params[c].args[0], vals[0]);
    assert Binds(en.heap[|h|].members, en.env.names, p.params[c].args[1], vals[1]);
    RunSymbol(p, fuel - 1, x, Num(a), en.env, en.heap, []);
    RunSymbol(p, fuel - 1, y, Num(b), en.env, en.heap, []);
    RunBinary(p, fuel - 1, Minus, Sym(x), Sym(y), Num(a), Num(b), en.env, en.heap, []);
    BodyRuns(p, fuel, e, en, Num(a - b), en.heap);
  }

  lemma RunPair(p: Program, fuel: nat, a: real, b: real, env: Env, h: Heap, ctx: Ctx)
    ensures EvalList(p, fuel, More(NumLit(a), More(NumLit(b), NoExprs)), env, h, ctx) == Normal([Num(a), Num(b)], h)
  {
    hide Eval;
    RunNumber(p, fuel, a, env, h, ctx);
    RunNumber(p, fuel, b, env, h, ctx);
    assert EvalList(p, fuel, NoExprs, env, h, ctx) == Normal([], h);
    assert EvalList(p, fuel, More(NumLit(b), NoExprs), env, h, ctx) == Normal([Num(b)], h);
  }

  // ----- recursion -----

  function Factorial(n: nat): nat { if n == 0 then 1 else n * Factorial(n - 1) }

  /** Function `c` is `func(n) { n < 2 ? 1 : n * f(n - 1) }`. */
  ghost predicate IsFactorial(p: Program, c: nat, n: string, f: string) {
    && c < |p.params| && c < |p.bodies| && n != f
    && p.params[c].args == [n] && p.params[c].opts == [] && !p.params[c].needVector
    && p.bodies[c] == Cond(Binary(Lt, Sym(n), NumLit(2.0)), NumLit(1.0), Binary(Mul, Sym(n), CallSelf(n, f)))
  }

  function CallSelf(n: string, f: string): Expr {
    Call(Sym(f), More(Binary(Minus, Sym(n), NumLit(1.0)), NoExprs))
  }

  /** The closure `fun` was made in the namespace `g`, where `f` is its name. */
  ghost predicate KnowsItself(p: Program, h: Heap, fun: Value, c: nat, g: nat, f: string) {
    && Closure(p.params, h, fun, c) && h[fun.addr].scopes == [g] && g < |h| && h[g].HashObj?
    && Binds(h[g].members, p.params[c].names, f, fun)
  }

  lemma ReadsOuter(host: Host, h: Heap, env: Env, g: nat, x: string, v: Value)
    requires env.scopes == [g] && env.locals < |h| && h[env.locals].HashObj? && g < |h| && h[g].HashObj?
    requires Str(x, Interned) !in h[env.locals].members && Binds(h[g].members, env.names, x, v)
    ensures GetLocal(host, h, env, Name(env.names, x)) == Ok(v)
  {
    var s := [env.locals] + env.scopes;
    assert s[1..] == [g];
    assert FindObject(h, s[1..], Name(env.names, x)) == Some(g);
    assert FindScope(h, s[1..], Name(env.names, x)) == Some(g);
  }

  lemma {:induction false} ProductOfReals(x: nat, y: nat)
    ensures (x * y) as real == x as real * y as real
  {
    if x > 0 {
      ProductOfReals(x - 1, y);
      assert x * y == (x - 1) * y + y;
      assert x as real * y as real == ((x - 1) as real + 1.0) * y as real;
    }
  }

  lemma RunProduct(p: Program, fuel: nat, a: Expr, b: Expr, x: nat, y: nat, env: Env, h: Heap, h1: Heap, ctx: Ctx)
    requires Eval(p, fuel, a, env, h, ctx) == Normal([Num(x as real)], h)
    requires Eval(p, fuel, b, env, h, ctx) == Normal([Num(y as real)], h1)
    ensures Eval(p, fuel, Binary(Mul, a, b), env, h, ctx) == Normal([Num((x * y) as real)], h1)
  {
    hide Eval, ApplyBinary;
    TimesIs(p.host, h1, x as real, y as real, (x * y) as real) by { ProductOfReals(x, y); }
    BinaryStarts(p, fuel, Binary(Mul, a, b), env, h, ctx);
  }

  lemma TimesIs(host: Host, h: Heap, x: real, y: real, z: real)
    requires z == x * y
    ensures ApplyBinary(host, Mul, h, Num(x), Num(y)) == Ok((Num(z), h))
  {
    assert Numify(host, Num(x)) == Ok(x) && Numify(host, Num(y)) == Ok(y);
    assert Arith(host, Mul, x, y) == Num(x * y);
  }

  lemma BinaryStarts(p: Program, fuel: nat, e: Expr, env: Env, h: Heap, ctx: Ctx)
    requires e.Binary?
    ensures Eval(p, fuel, e, env, h, ctx) == EvalBinary(p, fuel, e, env, h, ctx)
  {
    hide EvalBinary;
  }

  /** The body of the function, called with `k`. */
  lemma {:induction false} BodyIsFactorial(p: Program, fuel: nat, c: nat, n: string, f: string, fun: Value, g: nat,
      k: nat, env: Env, h: Heap) returns (h1: Heap)
    requires IsFactorial(p, c, n, f) && KnowsItself(p, h, fun, c, g, f) && fuel >= k
    requires env.scopes == [g] && env.names == p.params[c].names && Bound(h, env, n, Num(k as real))
    requires Str(f, Interned) !in h[env.locals].members
    ensures Eval(p, fuel, p.bodies[c], env, h, []) == Normal([Num(Factorial(k) as real)], h1) && h <= h1
    decreases k, 1
  {
    hide Eval, Bound, KnowsItself;
    var body := p.bodies[c];
    RunSymbol(p, fuel, n, Num(k as real), env, h, []);
    RunNumber(p, fuel, 2.0, env, h, []);
    RunNumber(p, fuel, 1.0, env, h, []);
    RunBinary(p, fuel, Lt, Sym(n), NumLit(2.0), Num(k as real), Num(2.0), env, h, []);
    CondStarts(p, fuel, body, k < 2, env, h, []);
    if k < 2 {
      h1 := h;
      assert Factorial(k) == 1;
    } else {
      h1 := CallsItself(p, fuel, c, n, f, fun, g, k, env, h);
      RunProduct(p, fuel, Sym(n), CallSelf(n, f), k, Factorial(k - 1), env, h, h1, []);
    }
  }

  lemma CallsItself(p: Program, fuel: nat, c: nat, n: string, f: string, fun: Value, g: nat, k: nat, env: Env, h: Heap)
    returns (h1: Heap)
    requires IsFactorial(p, c, n, f) && KnowsItself(p, h, fun, c, g, f) && fuel >= k >= 2
    requires env.scopes == [g] && env.names == p.params[c].names && Bound(h, env, n, Num(k as real))
    requires Str(f, Interned) !in h[env.locals].members
    ensures Eval(p, fuel, CallSelf(n, f), env, h, []) == Normal([Num(Factorial(k - 1) as real)], h1) && h <= h1
    decreases k, 0
  {
    hide Eval, EvalList, EnterCall, Invoke, GetLocal, Factorial;
    var arg := Binary(Minus, Sym(n), NumLit(1.0));
    var vals := [Num((k - 1) as real)];
    ReadsOuter(p.host, h, env, g, f, fun);
    RunFound(p, fuel, f, fun, env, h, []);
    RunSymbol(p, fuel, n, Num(k as real), env, h, []);
    RunNumber(p, fuel, 1.0, env, h, []);
    RunBinary(p, fuel, Minus, Sym(n), NumLit(1.0), Num(k as real), Num(1.0), env, h, []);
    RunOne(p, fuel, arg, vals[0], env, h, []);
    CallRuns(p, fuel, CallSelf(n, f), fun, vals, env, h, h, h, []);
    h1 := EntersFactorial(p, fuel, CallSelf(n, f), c, n, f, fun, g, k - 1, h);
  }

  /** The call with `k` in a new namespace. */
  lemma EntersFactorial(p: Program, fuel: nat, e: Expr, c: nat, n: string, f: string, fun: Value, g: nat, k: nat,
      h: Heap) returns (h1: Heap)
    requires IsFactorial(p, c, n, f) && KnowsItself(p, h, fun, c, g, f) && fuel > k
    ensures Invoke(p, fuel, e, EnterCall(p.params, h, fun, None, [Num(k as real)]))
            == Normal([Num(Factorial(k) as real)], h1) && h <= h1
    decreases k, 2
  {
    hide Eval, EnterCall, Invoke, Factorial;
    var vals := [Num(k as real)];
    CallStarts(p.params, h, fun, None, vals, c);
    CallBinds(p.params, h, fun, None, vals, c);
    CallBindsMe(p.params, h, fun, None, vals, c);
    var en := EnterCall(p.params, h, fun, None, vals).value;
    assert Binds(en.heap[|h|].members, en.env.names, p.params[c].args[0], vals[0]);
    h1 := BodyIsFactorial(p, fuel - 1, c, n, f, fun, g, k, en.env, en.heap);
    BodyRuns(p, fuel, e, en, Num(Factorial(k) as real), h1);
  }

  lemma RunFound(p: Program, fuel: nat, x: string, v: Value, env: Env, h: Heap, ctx: Ctx)
    requires GetLocal(p.host, h, env, Name(env.names, x)) == Ok(v)
    ensures Eval(p, fuel, Sym(x), env, h, ctx) == Normal([v], h)
  {
    hide GetLocal;
  }

  lemma RunOne(p: Program, fuel: nat, e: Expr, v: Value, env: Env, h: Heap, ctx: Ctx)
    requires Eval(p, fuel, e, env, h, ctx) == Normal([v], h)
    ensures EvalList(p, fuel, More(e, NoExprs), env, h, ctx) == Normal([v], h)
  {
    hide Eval;
    assert EvalList(p, fuel, NoExprs, env, h, ctx) == Normal([], h);
  }

  /** A call of the function with a natural number yields its factorial. */
  lemma ComputesFactorial(p: Program, fuel: nat, c: nat, n: string, f: string, fun: Value, g: nat, k: nat, x: string,
      env: Env, h: Heap, ctx: Ctx)
    requires IsFactorial(p, c, n, f) && KnowsItself(p, h, fun, c, g, f) && Bound(h, env, x, fun) && fuel > k
    ensures var o := Eval(p, fuel, Call(Sym(x), More(NumLit(k as real), NoExprs)), env, h, ctx);
            o.Normal? && o.vals == [Num(Factorial(k) as real)] && h <= o.heap
  {
    hide Eval, EvalList, EnterCall, Invoke, Factorial;
    var e := Call(Sym(x), More(NumLit(k as real), NoExprs));
    RunSymbol(p, fuel, x, fun, env, h, ctx);
    RunNumber(p, fuel, k as real, env, h, ctx);
    RunOne(p, fuel, NumLit(k as real), Num(k as real), env, h, ctx);
    CallRuns(p, fuel, e, fun, [Num(k as real)], env, h, h, h, ctx);
    var h1 := EntersFactorial(p, fuel, e, c, n, f, fun, g, k, h);
  }

  // ----- closures -----

  /** Function `c` is `func { x += 1 }`, without parameters, and `x` is no name of its own. */
  ghost predicate Counts(p: Program, c: nat, x: string) {
    && c < |p.params| && c < |p.bodies| && p.params[c].args == [] && p.params[c].opts == [] && !p.params[c].needVector
    && p.bodies[c] == OpAssign(Plus, LSym(x), NumLit(1.0))
  }

  /** Made and called where `x` is a local variable, it counts that variable up. */
  lemma ClosureCounts(p: Program, fuel: nat, c: nat, x: string, t: real, env: Env, h: Heap, ctx: Ctx)
    requires Counts(p, c, x) && Bound(h, env, x, Num(t)) && env.names(x) == p.params[c].names(x) && fuel > 0
    ensures var o := Eval(p, fuel, Call(Lambda(c), NoExprs), env, h, ctx);
      && o.Normal? && o.vals == [Num(t + 1.0)] && |h| <= |o.heap| && Bound(o.heap, env, x, Num(t + 1.0))
      && SameBut(h, o.heap[..|h|], env.locals, {x})
  {
    hide Eval, EvalList, EnterCall, Invoke;
    var e := Call(Lambda(c), NoExprs);
    var fun := Func(|h|);
    var h1 := h + [FuncObj(c, [env.locals] + env.scopes)];
    RunLambda(p, fuel, c, env, h, ctx);
    RunNone(p, fuel, env, h1, ctx);
    CallRuns(p, fuel, e, fun, [], env, h, h1, h1, ctx);
    CallStarts(p.params, h1, fun, None, [], c);
    CallBindsMe(p.params, h1, fun, None, [], c);
    var en := EnterCall(p.params, h1, fun, None, []).value;
    assert Str(x, Interned) !in en.heap[|h1|].members;
    CountsUp(p, fuel - 1, x, t, env, en.env, en.heap);
    BodyRuns(p, fuel, e, en, Num(t + 1.0), Assigned(en.heap, env, x, Num(t + 1.0)));
  }

  lemma RunLambda(p: Program, fuel: nat, c: nat, env: Env, h: Heap, ctx: Ctx)
    ensures Eval(p, fuel, Lambda(c), env, h, ctx) == Normal([Func(|h|)], h + [FuncObj(c, [env.locals] + env.scopes)])
  {
  }

  lemma RunNone(p: Program, fuel: nat, env: Env, h: Heap, ctx: Ctx)
    ensures EvalList(p, fuel, NoExprs, env, h, ctx) == Normal([], h)
  {
  }

  /** The body of the closure, whose own namespace has no `x`, in the namespace of `outer`. */
  lemma CountsUp(p: Program, fuel: nat, x: string, t: real, outer: Env, env: Env, h: Heap)
    requires Bound(h, outer, x, Num(t)) && env.scopes == [outer.locals] + outer.scopes && env.names(x) == outer.names(x)
    requires env.locals < |h| && h[env.locals].HashObj? && Str(x, Interned) !in h[env.locals].members
    ensures Eval(p, fuel, OpAssign(Plus, LSym(x), NumLit(1.0)), env, h, [])
            == Normal([Num(t + 1.0)], Assigned(h, outer, x, Num(t + 1.0)))
  {
    hide Eval, GetLocal, SetSymbol;
    var e := OpAssign(Plus, LSym(x), NumLit(1.0));
    var sym := Name(env.names, x);
    NextOut(p.host, h, env, outer, x, Num(t), Num(t + 1.0));
    TargetOfSymbol(p, fuel, LSym(x), env, h, []);
    RunNumber(p, fuel, 1.0, env, h, []);
    assert ApplyBinary(p.host, Plus, h, Num(t), Num(1.0)) == Ok((Num(t + 1.0), h));
    assert Store(LSym(x), env, h, [sym], Num(t + 1.0), p.host) == Ok(Assigned(h, outer, x, Num(t + 1.0)));
    Increase(p, fuel, e, env, h, []);
  }

  /** The variable of the enclosing namespace is read and assigned. */
  lemma NextOut(host: Host, h: Heap, env: Env, outer: Env, x: string, v: Value, w: Value)
    requires Bound(h, outer, x, v) && env.scopes == [outer.locals] + outer.scopes && env.names(x) == outer.names(x)
    requires env.locals < |h| && h[env.locals].HashObj? && Str(x, Interned) !in h[env.locals].members
    ensures GetLocal(host, h, env, Name(env.names, x)) == Ok(v)
    ensures SetSymbol(h, env, Name(env.names, x), w) == Assigned(h, outer, x, w)
  {
    var s := [env.locals] + env.scopes;
    assert s[1..] == env.scopes;
    assert FindObject(h, s[1..], Name(env.names, x)) == Some(outer.locals);
    assert FindScope(h, s[1..], Name(env.names, x)) == Some(outer.locals);
  }

  // ----- methods -----

  /** Function `c` is `func { me }`. */
  ghost predicate YieldsMe(p: Program, c: nat) {
    && c < |p.params| && c < |p.bodies| && p.params[c].args == [] && p.params[c].opts == []
    && p.params[c].rest != "me" && p.params[c].names("me") == Interned && p.bodies[c] == Sym("me")
  }

  /** Called as a member of an object, its own or one of a parent, it yields the object. */
  lemma MethodSeesMe(p: Program, fuel: nat, c: nat, x: string, field: string, obj: Value, fun: Value, env: Env, h: Heap,
      ctx: Ctx)
    requires YieldsMe(p, c) && Bound(h, env, x, obj) && GetMember(h, obj, field) == Ok(fun)
    requires Closure(p.params, h, fun, c) && fuel > 0
    ensures var o := Eval(p, fuel, MethodCall(Sym(x), field, NoExprs), env, h, ctx);
            o.Normal? && o.vals == [obj] && h < o.heap
  {
    hide Eval, EvalList, EnterCall, Invoke, GetMember;
    var e := MethodCall(Sym(x), field, NoExprs);
    RunSymbol(p, fuel, x, obj, env, h, ctx);
    RunNone(p, fuel, env, h, ctx);
    MethodCallRuns(p, fuel, e, obj, fun, [], env, h, ctx);
    CallStarts(p.params, h, fun, Some(obj), [], c);
    CallBindsMe(p.params, h, fun, Some(obj), [], c);
    var en := EnterCall(p.params, h, fun, Some(obj), []).value;
    RunSymbol(p, fuel - 1, "me", obj, en.env, en.heap, []);
    BodyRuns(p, fuel, e, en, obj, en.heap);
  }

  lemma MethodCallRuns(p: Program, fuel: nat, e: Expr, obj: Value, f: Value, vals: seq<Value>, env: Env, h: Heap,
      ctx: Ctx)
    requires e.MethodCall? && Eval(p, fuel, e.obj, env, h, ctx) == Normal([obj], h)
    requires GetMember(h, obj, e.field) == Ok(f) && EvalList(p, fuel, e.args, env, h, ctx) == Normal(vals, h)
    ensures Eval(p, fuel, e, env, h, ctx) == Invoke(p, fuel, e, EnterCall(p.params, h, f, Some(obj), vals))
  {
    hide EnterCall, Invoke, EvalList, GetMember;
    assert Eval(p, fuel, e, env, h, ctx) == EvalMethodCall(p, fuel, e, env, h, ctx);
  }

  // ----- list assignments -----

  /** `(x, y) = (y, x)` exchanges two variables. */
  lemma ListAssignmentSwaps(p: Program, fuel: nat, x: string, y: string, a: Value, b: Value, env: Env, h: Heap,
      ctx: Ctx)
    requires x != y && Bound(h, env, x, a) && Bound(h, env, y, b)
    ensures var o := Eval(p, fuel, MultiAssign(MoreLV(LSym(x), OneLV(LSym(y))), More(Sym(y), More(Sym(x), NoExprs))),
                          env, h, ctx);
            o.Normal? && Bound(o.heap, env, x, b) && Bound(o.heap, env, y, a) && SameBut(h, o.heap, env.locals, {x, y})
  {
    hide Eval, EvalStore, EvalReverse, EvalAssign;
    var lvs := MoreLV(LSym(x), OneLV(LSym(y)));
    var e := MultiAssign(lvs, More(Sym(y), More(Sym(x), NoExprs)));
    RunSymbol(p, fuel, x, a, env, h, ctx);
    RunSymbol(p, fuel, y, b, env, h, ctx);
    ReverseTwo(p, fuel, Sym(y), Sym(x), b, a, env, h, ctx);
    var h1 := Assigned(h, env, x, b);
    RunAssign(p, fuel, x, a, b, env, h, ctx);
    RunAssign(p, fuel, y, b, a, env, h1, ctx);
    AssignTwo(p, fuel, lvs, [a, b], env, h, h1, Assigned(h1, env, y, a), ctx);
    MultiStarts(p, fuel, e, [a, b], env, h, ctx);
  }

  lemma RunAssign(p: Program, fuel: nat, x: string, u: Value, v: Value, env: Env, h: Heap, ctx: Ctx)
    requires Bound(h, env, x, u)
    ensures EvalStore(p, fuel, LSym(x), v, env, h, ctx) == Normal([v], Assigned(h, env, x, v))
  {
    hide SetSymbol;
    Writes(h, env, x, u, v);
    TargetOfSymbol(p, fuel, LSym(x), env, h, ctx);
  }

  /** The values of a list are evaluated from the last to the first. */
  lemma ReverseTwo(p: Program, fuel: nat, a: Expr, b: Expr, u: Value, v: Value, env: Env, h: Heap, ctx: Ctx)
    requires Eval(p, fuel, a, env, h, ctx) == Normal([u], h) && Eval(p, fuel, b, env, h, ctx) == Normal([v], h)
    ensures EvalReverse(p, fuel, More(a, More(b, NoExprs)), env, h, ctx) == Normal([v, u], h)
  {
    hide Eval;
    assert EvalReverse(p, fuel, NoExprs, env, h, ctx) == Normal([], h);
    assert EvalReverse(p, fuel, More(b, NoExprs), env, h, ctx) == Normal([v], h);
  }

  lemma AssignTwo(p: Program, fuel: nat, lvs: LValues, vals: seq<Value>, env: Env, h: Heap, h1: Heap, h2: Heap,
      ctx: Ctx)
    requires lvs.MoreLV? && lvs.rest.OneLV? && |vals| == 2
    requires EvalStore(p, fuel, lvs.lv, vals[1], env, h, ctx) == Normal([vals[1]], h1)
    requires EvalStore(p, fuel, lvs.rest.lv, vals[0], env, h1, ctx) == Normal([vals[0]], h2)
    ensures EvalAssign(p, fuel, lvs, vals, env, h, ctx) == Normal([vals[0]], h2)
  {
    hide EvalStore;
    assert vals[..1] == [vals[0]];
    assert EvalAssign(p, fuel, lvs.rest, [vals[0]], env, h1, ctx) == Normal([vals[0]], h2);
  }

  lemma MultiStarts(p: Program, fuel: nat, e: Expr, vals: seq<Value>, env: Env, h: Heap, ctx: Ctx)
    requires e.MultiAssign? && CountLV(e.lvs) == Count(e.rvs)
    requires EvalReverse(p, fuel, e.rvs, env, h, ctx) == Normal(vals, h)
    ensures |vals| == CountLV(e.lvs)
    ensures Eval(p, fuel, e, env, h, ctx) == EvalAssign(p, fuel, e.lvs, vals, env, h, ctx)
  {
    hide EvalAssign;
    assert Eval(p, fuel, e, env, h, ctx) == EvalMultiAssign(p, fuel, e, env, h, ctx);
  }

  /** `(var x, var y) = v` takes the first two elements of a vector in order. */
  lemma UnpackingBinds(p: Program, fuel: nat, x: string, y: string, v: string, vec: Value, env: Env, h: Heap, ctx: Ctx)
    requires x != y && Bound(h, env, v, vec) && Unbound(h, env, x) && Unbound(h, env, y)
    requires vec.Vec? && vec.addr < |h| && h[vec.addr].VecObj? && |h[vec.addr].elems| >= 2
    ensures var o := Eval(p, fuel, Unpack(MoreLV(LVar(x), OneLV(LVar(y))), Sym(v)), env, h, ctx);
      && o.Normal? && Bound(o.heap, env, x, h[vec.addr].elems[0]) && Bound(o.heap, env, y, h[vec.addr].elems[1])
      && SameBut(h, o.heap, env.locals, {x, y})
  {
    hide Eval, EvalStore, EvalAssign, UnpackVec;
    var lvs := MoreLV(LVar(x), OneLV(LVar(y)));
    var a, b := h[vec.addr].elems[0], h[vec.addr].elems[1];
    RunSymbol(p, fuel, v, vec, env, h, ctx);
    UnpacksInOrder(h, vec, 2);
    var vals := UnpackVec(h, vec, 2).value;
    assert vals[2 - 1 - 0] == a && vals[2 - 1 - 1] == b;
    var h1 := Assigned(h, env, x, a);
    RunDeclare(p, fuel, x, a, env, h, ctx);
    RunDeclare(p, fuel, y, b, env, h1, ctx);
    AssignTwo(p, fuel, lvs, vals, env, h, h1, Assigned(h1, env, y, b), ctx);
    UnpackStarts(p, fuel, Unpack(lvs, Sym(v)), vec, vals, env, h, ctx);
  }

  lemma UnpackStarts(p: Program, fuel: nat, e: Expr, vec: Value, vals: seq<Value>, env: Env, h: Heap, ctx: Ctx)
    requires e.Unpack? && Eval(p, fuel, e.rhs, env, h, ctx) == Normal([vec], h)
    requires UnpackVec(h, vec, CountLV(e.lvs)) == Ok(vals)
    ensures Eval(p, fuel, e, env, h, ctx) == EvalAssign(p, fuel, e.lvs, vals, env, h, ctx)
  {
    hide EvalAssign, UnpackVec;
    assert Eval(p, fuel, e, env, h, ctx) == EvalUnpack(p, fuel, e, env, h, ctx);
  }

  // ----- short circuits -----

  /** `and` yields the left value when it is false, `or` when it is true, and else the right value; the right side
      is not evaluated when the left one decides. */
  lemma ShortCircuits(p: Program, fuel: nat, a: Expr, b: Expr, env: Env, h: Heap, ctx: Ctx)
    requires Eval(p, fuel, a, env, h, ctx).Normal? && Boolify(p.host, Eval(p, fuel, a, env, h, ctx).vals[0]).Ok?
    ensures var o := Eval(p, fuel, a, env, h, ctx);
      if Boolify(p.host, o.vals[0]).value then
        && Eval(p, fuel, And(a, b), env, h, ctx) == Eval(p, fuel, b, env, o.heap, ctx)
        && Eval(p, fuel, Or(a, b), env, h, ctx) == o
      else
        && Eval(p, fuel, And(a, b), env, h, ctx) == o
        && Eval(p, fuel, Or(a, b), env, h, ctx) == Eval(p, fuel, b, env, o.heap, ctx)
  {
    hide Eval, Boolify;
    ShortStarts(p, fuel, And(a, b), env, h, ctx);
    ShortStarts(p, fuel, Or(a, b), env, h, ctx);
  }

  lemma ShortStarts(p: Program, fuel: nat, e: Expr, env: Env, h: Heap, ctx: Ctx)
    requires e.And? || e.Or?
    ensures Eval(p, fuel, e, env, h, ctx) == EvalShort(p, fuel, e, env, h, ctx)
  {
    hide EvalShort;
  }
}
