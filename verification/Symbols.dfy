/** When looking symbols up by object gives what the language means. The interpreter tries the
    string object of a symbol first and its text only then; a literal of the same text is
    another object. For programs in which no literal of a function spells one of its symbols, and
    no literal key of a call with named arguments spells a symbol of the program, the two
    agree in every evaluation: a symbol is its innermost binding by text. */
module Symbols {
  import opened Basics
  import opened Values
  import opened Syntax
  import opened Semantics
  import opened Machine
  import opened Simulation
  import opened Correctness
  import opened Namespaces

  // ----- evaluation -----

  predicate HasHeap(o: Outcome) { !o.Fail? && !o.Timeout? }

  /** Two evaluations end alike, and leave a heap and values in order. */
  ghost predicate Matches(w: World, h: Heap, ns: set<nat>, o: Outcome, o': Outcome, to: set<nat>) {
    && o' == o
    && (HasHeap(o) ==> Good(o.heap, to, w.all) && Later(h, ns, o.heap, to))
    && (o.Normal? ==> SafeAll(o.vals, |o.heap|, to)) && (o.Ret? ==> Safe(o.val, |o.heap|, to))
  }

  /** A part of an evaluation that began at the heap `h0`. */
  lemma Sub(w: World, fuel: nat, e: Expr, env: Env, h0: Heap, ns0: set<nat>, h: Heap, ctx: Ctx, lits: set<string>,
      ns: set<nat>) returns (o: Outcome, to: set<nat>)
    requires Here(w, env, h, lits, ns) && Plain(e, lits, w.all) && Later(h0, ns0, h, ns)
    ensures o == Eval(w.p, fuel, e, env, h, ctx) == Eval(ByText(w.p), fuel, e, env, h, ctx)
    ensures HasHeap(o) ==> Here(w, env, o.heap, lits, to) && Later(h, ns, o.heap, to) && Later(h0, ns0, o.heap, to)
    ensures o.Normal? ==> Safe(Top(o), |o.heap|, to) && SafeAll(o.vals, |o.heap|, to)
    ensures !o.Normal? ==> Matches(w, h0, ns0, o, o, to)
    decreases fuel, e, 5
  {
    hide Good, Apart, Eval, Plain, EnvOk;
    o := Eval(w.p, fuel, e, env, h, ctx);
    to := SameExpr(w, fuel, e, env, h, ctx, lits, ns);
    if HasHeap(o) {
      HereLater(w, env, h, lits, ns, o.heap, to);
      LaterYet(h0, ns0, h, ns, o.heap, to);
    }
  }

  lemma SameUnary(w: World, fuel: nat, e: Expr, env: Env, h: Heap, ctx: Ctx, lits: set<string>,
      ns: set<nat>) returns (to: set<nat>)
    requires Here(w, env, h, lits, ns) && e.Unary? && Plain(e, lits, w.all)
    ensures Matches(w, h, ns, EvalUnary(w.p, fuel, e, env, h, ctx), EvalUnary(ByText(w.p), fuel, e, env, h, ctx), to)
    decreases fuel, e, 1
  {
    hide Good, Apart, Eval, EvalList, EvalReverse, EvalTarget, EvalStore, EvalAssign, Invoke, ApplyUnary;
    var o, ns1 := Sub(w, fuel, e.arg, env, h, ns, h, ctx, lits, ns);
    to := ns1;
    if !o.Normal? { return; }
    UnarySame(w.p.host, e.uop, Top(o));
  }

  lemma SameBinary(w: World, fuel: nat, e: Expr, env: Env, h: Heap, ctx: Ctx, lits: set<string>,
      ns: set<nat>) returns (to: set<nat>)
    requires Here(w, env, h, lits, ns) && e.Binary? && Plain(e, lits, w.all)
    ensures Matches(w, h, ns, EvalBinary(w.p, fuel, e, env, h, ctx), EvalBinary(ByText(w.p), fuel, e, env, h, ctx), to)
    decreases fuel, e, 1
  {
    hide Good, Apart, Eval, EvalList, EvalReverse, EvalTarget, EvalStore, EvalAssign, Invoke, ApplyBinary;
    var o1, ns1 := Sub(w, fuel, e.left, env, h, ns, h, ctx, lits, ns);
    to := ns1;
    if !o1.Normal? { return; }
    var o2, ns2 := Sub(w, fuel, e.right, env, h, ns, o1.heap, ctx, lits, ns1);
    to := ns2;
    if !o2.Normal? { return; }
    SafeLater(Top(o1), o1.heap, ns1, o2.heap, ns2);
    BinaryKeeps(w.p.host, e.op, o2.heap, Top(o1), Top(o2), ns2, w.all);
    var r := ApplyBinary(w.p.host, e.op, o2.heap, Top(o1), Top(o2));
    if r.Ok? { LaterYet(h, ns, o2.heap, ns2, r.value.1, ns2); }
  }

  lemma SameHashAppend(w: World, fuel: nat, e: Expr, env: Env, h: Heap, ctx: Ctx, lits: set<string>,
      ns: set<nat>) returns (to: set<nat>)
    requires Here(w, env, h, lits, ns) && e.HashAppend? && Plain(e, lits, w.all)
    ensures Matches(w, h, ns, EvalHashAppend(w.p, fuel, e, env, h, ctx),
                    EvalHashAppend(ByText(w.p), fuel, e, env, h, ctx), to)
    decreases fuel, e, 1
  {
    hide Good, Apart, Eval, EvalList, EvalReverse, EvalTarget, EvalStore, EvalAssign, Invoke, PutField;
    var o1, ns1 := Sub(w, fuel, e.hash, env, h, ns, h, ctx, lits, ns);
    to := ns1;
    if !o1.Normal? { return; }
    var o2, ns2 := Sub(w, fuel, e.key, env, h, ns, o1.heap, ctx, lits, ns1);
    to := ns2;
    if !o2.Normal? { return; }
    var o3, ns3 := Sub(w, fuel, e.val, env, h, ns, o2.heap, ctx, lits, ns2);
    to := ns3;
    if !o3.Normal? { return; }
    LaterYet(o1.heap, ns1, o2.heap, ns2, o3.heap, ns3);
    SafeLater(Top(o1), o1.heap, ns1, o3.heap, ns3);
    FieldKeeps(o3.heap, Top(o1), Top(o2), Top(o3), ns3, w.all);
  }

  lemma SameMember(w: World, fuel: nat, e: Expr, env: Env, h: Heap, ctx: Ctx, lits: set<string>,
      ns: set<nat>) returns (to: set<nat>)
    requires Here(w, env, h, lits, ns) && e.Member? && Plain(e, lits, w.all)
    ensures Matches(w, h, ns, EvalMember(w.p, fuel, e, env, h, ctx), EvalMember(ByText(w.p), fuel, e, env, h, ctx), to)
    decreases fuel, e, 1
  {
    hide Good, Apart, Eval, EvalList, EvalReverse, EvalTarget, EvalStore, EvalAssign, Invoke, GetMember;
    var o, ns1 := Sub(w, fuel, e.obj, env, h, ns, h, ctx, lits, ns);
    to := ns1;
    if !o.Normal? { return; }
    GetMemberSafe(o.heap, Top(o), e.field, ns1, w.all);
  }

  lemma SameShort(w: World, fuel: nat, e: Expr, env: Env, h: Heap, ctx: Ctx, lits: set<string>,
      ns: set<nat>) returns (to: set<nat>)
    requires Here(w, env, h, lits, ns) && (e.And? || e.Or?) && Plain(e, lits, w.all)
    ensures Matches(w, h, ns, EvalShort(w.p, fuel, e, env, h, ctx), EvalShort(ByText(w.p), fuel, e, env, h, ctx), to)
    decreases fuel, e, 1
  {
    hide Good, Apart, Eval, EvalList, EvalReverse, EvalTarget, EvalStore, EvalAssign, Invoke, Boolify, ApplyUnary;
    var o, ns1 := Sub(w, fuel, e.left, env, h, ns, h, ctx, lits, ns);
    to := ns1;
    if !o.Normal? { return; }
    UnarySame(w.p.host, Not, Top(o));
    var b := Boolify(w.p.host, Top(o));
    if b.Ok? && b.value != e.Or? {
      var o2, ns2 := Sub(w, fuel, e.right, env, h, ns, o.heap, ctx, lits, ns1);
      to := ns2;
    }
  }

  lemma SameCond(w: World, fuel: nat, e: Expr, env: Env, h: Heap, ctx: Ctx, lits: set<string>,
      ns: set<nat>) returns (to: set<nat>)
    requires Here(w, env, h, lits, ns) && e.Cond? && Plain(e, lits, w.all)
    ensures Matches(w, h, ns, EvalCond(w.p, fuel, e, env, h, ctx), EvalCond(ByText(w.p), fuel, e, env, h, ctx), to)
    decreases fuel, e, 1
  {
    hide Good, Apart, Eval, EvalList, EvalReverse, EvalTarget, EvalStore, EvalAssign, Invoke, Boolify, ApplyUnary;
    var o, ns1 := Sub(w, fuel, e.test, env, h, ns, h, ctx, lits, ns);
    to := ns1;
    if !o.Normal? { return; }
    UnarySame(w.p.host, Not, Top(o));
    var b := Boolify(w.p.host, Top(o));
    if b.Ok? {
      var o2, ns2 := Sub(w, fuel, if b.value then e.thn else e.els, env, h, ns, o.heap, ctx, lits, ns1);
      to := ns2;
    }
  }

  lemma SameSemi(w: World, fuel: nat, e: Expr, env: Env, h: Heap, ctx: Ctx, lits: set<string>,
      ns: set<nat>) returns (to: set<nat>)
    requires Here(w, env, h, lits, ns) && e.Semi? && Plain(e, lits, w.all)
    ensures Matches(w, h, ns, EvalSemi(w.p, fuel, e, env, h, ctx), EvalSemi(ByText(w.p), fuel, e, env, h, ctx), to)
    decreases fuel, e, 1
  {
    hide Good, Apart, Eval, EvalList, EvalReverse, EvalTarget, EvalStore, EvalAssign, Invoke;
    var o, ns1 := Sub(w, fuel, e.first, env, h, ns, h, ctx, lits, ns);
    to := ns1;
    if !o.Normal? { return; }
    var o2, ns2 := Sub(w, fuel, e.rest, env, h, ns, o.heap, ctx, lits, ns1);
    to := ns2;
  }

  lemma SameReturn(w: World, fuel: nat, e: Expr, env: Env, h: Heap, ctx: Ctx, lits: set<string>,
      ns: set<nat>) returns (to: set<nat>)
    requires Here(w, env, h, lits, ns) && e.Return? && Plain(e, lits, w.all)
    ensures Matches(w, h, ns, EvalReturn(w.p, fuel, e, env, h, ctx), EvalReturn(ByText(w.p), fuel, e, env, h, ctx), to)
    decreases fuel, e, 1
  {
    hide Good, Apart, Eval, EvalList, EvalReverse, EvalTarget, EvalStore, EvalAssign, Invoke;
    var o, ns1 := Sub(w, fuel, e.arg, env, h, ns, h, ctx, lits, ns);
    to := ns1;
  }

  lemma SamePlainAssign(w: World, fuel: nat, e: Expr, env: Env, h: Heap, ctx: Ctx, lits: set<string>,
      ns: set<nat>) returns (to: set<nat>)
    requires Here(w, env, h, lits, ns) && e.Assign? && Plain(e, lits, w.all)
    ensures Matches(w, h, ns, EvalPlainAssign(w.p, fuel, e, env, h, ctx),
                    EvalPlainAssign(ByText(w.p), fuel, e, env, h, ctx), to)
    decreases fuel, e, 1
  {
    hide Good, Apart, Eval, EvalList, EvalReverse, EvalTarget, EvalStore, EvalAssign, Invoke;
    var o, ns1 := Sub(w, fuel, e.rhs, env, h, ns, h, ctx, lits, ns);
    to := ns1;
    if !o.Normal? { return; }
    to := SameStore(w, fuel, e.lv, Top(o), env, o.heap, ctx, lits, ns1);
    var o2 := EvalStore(w.p, fuel, e.lv, Top(o), env, o.heap, ctx);
    Onward(w, h, ns, o.heap, ns1, o2, to);
  }

  lemma SameMultiAssign(w: World, fuel: nat, e: Expr, env: Env, h: Heap, ctx: Ctx, lits: set<string>,
      ns: set<nat>) returns (to: set<nat>)
    requires Here(w, env, h, lits, ns) && e.MultiAssign? && Plain(e, lits, w.all)
    ensures Matches(w, h, ns, EvalMultiAssign(w.p, fuel, e, env, h, ctx),
                    EvalMultiAssign(ByText(w.p), fuel, e, env, h, ctx), to)
    decreases fuel, e, 1
  {
    hide Good, Apart, Eval, EvalList, EvalReverse, EvalTarget, EvalStore, EvalAssign, Invoke;
    to := SameReverse(w, fuel, e.rvs, env, h, ctx, lits, ns);
    var o := EvalReverse(w.p, fuel, e.rvs, env, h, ctx);
    if o.Normal? && CountLV(e.lvs) == Count(e.rvs) {
      HereLater(w, env, h, lits, ns, o.heap, to);
      var ns1 := to;
      to := SameStores(w, fuel, e.lvs, o.vals, env, o.heap, ctx, lits, ns1);
      Onward(w, h, ns, o.heap, ns1, EvalAssign(w.p, fuel, e.lvs, o.vals, env, o.heap, ctx), to);
    }
  }

  lemma SameUnpack(w: World, fuel: nat, e: Expr, env: Env, h: Heap, ctx: Ctx, lits: set<string>,
      ns: set<nat>) returns (to: set<nat>)
    requires Here(w, env, h, lits, ns) && e.Unpack? && Plain(e, lits, w.all)
    ensures Matches(w, h, ns, EvalUnpack(w.p, fuel, e, env, h, ctx), EvalUnpack(ByText(w.p), fuel, e, env, h, ctx), to)
    decreases fuel, e, 1
  {
    hide Good, Apart, Eval, EvalList, EvalReverse, EvalTarget, EvalStore, EvalAssign, Invoke, UnpackVec;
    var o, ns1 := Sub(w, fuel, e.rhs, env, h, ns, h, ctx, lits, ns);
    to := ns1;
    if !o.Normal? { return; }
    UnpackSafe(o.heap, Top(o), CountLV(e.lvs), ns1, w.all);
    var r := UnpackVec(o.heap, Top(o), CountLV(e.lvs));
    if r.Ok? {
      to := SameStores(w, fuel, e.lvs, r.value, env, o.heap, ctx, lits, ns1);
      Onward(w, h, ns, o.heap, ns1, EvalAssign(w.p, fuel, e.lvs, r.value, env, o.heap, ctx), to);
    }
  }

  lemma SameOpAssign(w: World, fuel: nat, e: Expr, env: Env, h: Heap, ctx: Ctx, lits: set<string>,
      ns: set<nat>) returns (to: set<nat>)
    requires Here(w, env, h, lits, ns) && e.OpAssign? && Plain(e, lits, w.all)
    ensures Matches(w, h, ns, EvalOpAssign(w.p, fuel, e, env, h, ctx),
                    EvalOpAssign(ByText(w.p), fuel, e, env, h, ctx), to)
    decreases fuel, e, 1
  {
    hide Good, Apart, Eval, EvalList, EvalReverse, EvalTarget, EvalStore, EvalAssign, Invoke, Load, Store, ApplyBinary;
    to := SameTarget(w, fuel, e.lv, env, h, ctx, lits, ns);
    var o1 := EvalTarget(w.p, fuel, e.lv, env, h, ctx);
    if !o1.Normal? { return; }
    var ns1 := to;
    HereLater(w, env, h, lits, ns, o1.heap, ns1);
    LoadSame(w, e.lv, env, o1.heap, o1.vals, lits, ns1);
    var x := Load(e.lv, env, o1.heap, o1.vals, w.p.host);
    if x.Err? { return; }
    var o2, ns2 := Sub(w, fuel, e.rhs, env, h, ns, o1.heap, ctx, lits, ns1);
    to := ns2;
    if !o2.Normal? { return; }
    SafeLater(x.value, o1.heap, ns1, o2.heap, ns2);
    SafeAllLater(o1.vals, o1.heap, ns1, o2.heap, ns2);
    StoreBackSame(w, e, env, o2.heap, o1.vals, x.value, Top(o2), h, ns, lits, ns2);
  }

  lemma SameCall(w: World, fuel: nat, e: Expr, env: Env, h: Heap, ctx: Ctx, lits: set<string>,
      ns: set<nat>) returns (to: set<nat>)
    requires Here(w, env, h, lits, ns) && e.Call? && Plain(e, lits, w.all)
    ensures Matches(w, h, ns, EvalCall(w.p, fuel, e, env, h, ctx), EvalCall(ByText(w.p), fuel, e, env, h, ctx), to)
    decreases fuel, e, 1
  {
    hide Good, Apart, Eval, EvalList, EvalReverse, EvalTarget, EvalStore, EvalAssign, Invoke, EnterCall, GetMember;
    var o1, ns1 := Sub(w, fuel, e.f, env, h, ns, h, ctx, lits, ns);
    to := ns1;
    if !o1.Normal? { return; }
    to := SameList(w, fuel, e.args, env, o1.heap, ctx, lits, ns1);
    var o2 := EvalList(w.p, fuel, e.args, env, o1.heap, ctx);
    Onward(w, h, ns, o1.heap, ns1, o2, to);
    if !o2.Normal? { return; }
    var ns2 := to;
    SafeLater(Top(o1), o1.heap, ns1, o2.heap, ns2);
    var r := EnterCall(w.p.params, o2.heap, Top(o1), None, o2.vals);
    if r.Ok? {
      to := EnterCallKeeps(w, o2.heap, Top(o1), None, o2.vals, ns2);
      LaterYet(h, ns, o2.heap, ns2, r.value.heap, to);
      var ns3 := to;
      to := SameInvoke(w, fuel, e, r.value, ns3);
      Onward(w, h, ns, r.value.heap, ns3, Invoke(w.p, fuel, e, r), to);
    } else {
      InvokeFails(w.p, fuel, e, r.error);
    }
  }

  lemma SameMethodCall(w: World, fuel: nat, e: Expr, env: Env, h: Heap, ctx: Ctx, lits: set<string>,
      ns: set<nat>) returns (to: set<nat>)
    requires Here(w, env, h, lits, ns) && e.MethodCall? && Plain(e, lits, w.all)
    ensures Matches(w, h, ns, EvalMethodCall(w.p, fuel, e, env, h, ctx),
                    EvalMethodCall(ByText(w.p), fuel, e, env, h, ctx), to)
    decreases fuel, e, 1
  {
    hide Good, Apart, Eval, EvalList, EvalReverse, EvalTarget, EvalStore, EvalAssign, Invoke, EnterCall, GetMember;
    var o1, ns1 := Sub(w, fuel, e.obj, env, h, ns, h, ctx, lits, ns);
    to := ns1;
    if !o1.Normal? { return; }
    GetMemberSafe(o1.heap, Top(o1), e.field, ns1, w.all);
    var f := GetMember(o1.heap, Top(o1), e.field);
    if f.Err? { return; }
    to := SameList(w, fuel, e.args, env, o1.heap, ctx, lits, ns1);
    var o2 := EvalList(w.p, fuel, e.args, env, o1.heap, ctx);
    Onward(w, h, ns, o1.heap, ns1, o2, to);
    if !o2.Normal? { return; }
    var ns2 := to;
    SafeLater(Top(o1), o1.heap, ns1, o2.heap, ns2);
    var r := EnterCall(w.p.params, o2.heap, f.value, Some(Top(o1)), o2.vals);
    if r.Ok? {
      to := EnterCallKeeps(w, o2.heap, f.value, Some(Top(o1)), o2.vals, ns2);
      LaterYet(h, ns, o2.heap, ns2, r.value.heap, to);
      var ns3 := to;
      to := SameInvoke(w, fuel, e, r.value, ns3);
      Onward(w, h, ns, r.value.heap, ns3, Invoke(w.p, fuel, e, r), to);
    } else {
      InvokeFails(w.p, fuel, e, r.error);
    }
  }

  lemma SameNamedCall(w: World, fuel: nat, e: Expr, env: Env, h: Heap, ctx: Ctx, lits: set<string>,
      ns: set<nat>) returns (to: set<nat>)
    requires Here(w, env, h, lits, ns) && e.NamedCall? && Plain(e, lits, w.all)
    ensures Matches(w, h, ns, EvalNamedCall(w.p, fuel, e, env, h, ctx),
                    EvalNamedCall(ByText(w.p), fuel, e, env, h, ctx), to)
    decreases fuel, e, 1
  {
    hide Good, Apart, Eval, EvalList, EvalReverse, EvalTarget, EvalStore, EvalAssign, Invoke, EnterNamed, GetMember;
    var o1, ns1 := Sub(w, fuel, e.f, env, h, ns, h, ctx, lits, ns);
    to := ns1;
    if !o1.Normal? { return; }
    to := SameNamed(w, fuel, e.named, env, o1.heap, ctx, lits, ns1);
    var o2 := Eval(w.p, fuel, e.named, env, o1.heap, ctx);
    if !o2.Normal? {
      Onward(w, h, ns, o1.heap, ns1, o2, to);
      return;
    }
    var ns2 := to;
    LaterYet(h, ns, o1.heap, ns1, o2.heap, ns2);
    SafeLater(Top(o1), o1.heap, ns1, o2.heap, ns2);
    EnterNamedSame(w, o2.heap, Top(o1), None, Top(o2), ns2);
    var r := EnterNamed(w.p.host, w.p.params, o2.heap, Top(o1), None, Top(o2));
    if r.Ok? {
      LaterYet(h, ns, o2.heap, ns2, r.value.heap, ns2);
      to := SameInvoke(w, fuel, e, r.value, ns2);
      Onward(w, h, ns, r.value.heap, ns2, Invoke(w.p, fuel, e, r), to);
    } else {
      InvokeFails(w.p, fuel, e, r.error);
    }
  }

  lemma SameNamedMethodCall(w: World, fuel: nat, e: Expr, env: Env, h: Heap, ctx: Ctx, lits: set<string>,
      ns: set<nat>) returns (to: set<nat>)
    requires Here(w, env, h, lits, ns) && e.NamedMethodCall? && Plain(e, lits, w.all)
    ensures Matches(w, h, ns, EvalNamedMethodCall(w.p, fuel, e, env, h, ctx),
                    EvalNamedMethodCall(ByText(w.p), fuel, e, env, h, ctx), to)
    decreases fuel, e, 1
  {
    hide Good, Apart, Eval, EvalList, EvalReverse, EvalTarget, EvalStore, EvalAssign, Invoke, EnterNamed, GetMember;
    var o1, ns1 := Sub(w, fuel, e.obj, env, h, ns, h, ctx, lits, ns);
    to := ns1;
    if !o1.Normal? { return; }
    GetMemberSafe(o1.heap, Top(o1), e.field, ns1, w.all);
    var f := GetMember(o1.heap, Top(o1), e.field);
    if f.Err? { return; }
    to := SameNamed(w, fuel, e.named, env, o1.heap, ctx, lits, ns1);
    var o2 := Eval(w.p, fuel, e.named, env, o1.heap, ctx);
    if !o2.Normal? {
      Onward(w, h, ns, o1.heap, ns1, o2, to);
      return;
    }
    var ns2 := to;
    LaterYet(h, ns, o1.heap, ns1, o2.heap, ns2);
    SafeLater(Top(o1), o1.heap, ns1, o2.heap, ns2);
    EnterNamedSame(w, o2.heap, f.value, Some(Top(o1)), Top(o2), ns2);
    var r := EnterNamed(w.p.host, w.p.params, o2.heap, f.value, Some(Top(o1)), Top(o2));
    if r.Ok? {
      LaterYet(h, ns, o2.heap, ns2, r.value.heap, ns2);
      to := SameInvoke(w, fuel, e, r.value, ns2);
      Onward(w, h, ns, r.value.heap, ns2, Invoke(w.p, fuel, e, r), to);
    } else {
      InvokeFails(w.p, fuel, e, r.error);
    }
  }

  lemma SameForEach(w: World, fuel: nat, e: Expr, env: Env, h: Heap, ctx: Ctx, lits: set<string>,
      ns: set<nat>) returns (to: set<nat>)
    requires Here(w, env, h, lits, ns) && e.ForEach? && Plain(e, lits, w.all)
    ensures Matches(w, h, ns, EvalForEach(w.p, fuel, e, env, h, ctx),
                    EvalForEach(ByText(w.p), fuel, e, env, h, ctx), to)
    decreases fuel, e, 1
  {
    hide Good, Apart, Eval, EvalList, EvalReverse, EvalTarget, EvalStore, EvalAssign, Invoke, EvalEach;
    var o, ns1 := Sub(w, fuel, e.vec, env, h, ns, h, ctx, lits, ns);
    to := ns1;
    if !o.Normal? { return; }
    to := SameEach(w, fuel, e, Top(o), 0, env, o.heap, ctx, lits, ns1);
    Onward(w, h, ns, o.heap, ns1, EvalEach(w.p, fuel, e, Top(o), 0, env, o.heap, ctx), to);
  }

  lemma SameLoop(w: World, fuel: nat, e: Expr, env: Env, h: Heap, ctx: Ctx, lits: set<string>,
      ns: set<nat>) returns (to: set<nat>)
    requires Here(w, env, h, lits, ns) && e.Loop? && Plain(e, lits, w.all)
    ensures Matches(w, h, ns, EvalLoop(w.p, fuel, e, env, h, ctx), EvalLoop(ByText(w.p), fuel, e, env, h, ctx), to)
    decreases fuel, e, 1
  {
    hide Good, Apart, Eval, EvalUpdate, Boolify, ApplyUnary;
    to := ns;
    if fuel == 0 { return; }
    var o1, ns1 := Sub(w, fuel, e.test, env, h, ns, h, ctx + [Scope(e.tag, false)], lits, ns);
    to := ns1;
    if !o1.Normal? { return; }
    UnarySame(w.p.host, Not, Top(o1));
    if Boolify(w.p.host, Top(o1)) != Ok(true) { return; }
    var o2, ns2 := Sub(w, fuel, e.body, env, h, ns, o1.heap, ctx + [Scope(e.tag, true)], lits, ns1);
    to := ns2;
    if o2.Normal? || o2 == Cont(|ctx|, HeapOf(o2)) {
      to := SameUpdate(w, fuel, e, env, o2.heap, ctx, lits, ns2);
      Onward(w, h, ns, o2.heap, ns2, EvalUpdate(w.p, fuel, e, env, o2.heap, ctx), to);
    }
  }

  lemma SameUpdate(w: World, fuel: nat, e: Expr, env: Env, h: Heap, ctx: Ctx, lits: set<string>,
      ns: set<nat>) returns (to: set<nat>)
    requires Here(w, env, h, lits, ns) && e.Loop? && Plain(e, lits, w.all)
    ensures Matches(w, h, ns, EvalUpdate(w.p, fuel, e, env, h, ctx), EvalUpdate(ByText(w.p), fuel, e, env, h, ctx), to)
    decreases fuel, e, 0
  {
    hide Good, Apart, Eval, EvalList, EvalReverse, EvalTarget, EvalStore, EvalAssign, Invoke, EvalLoop;
    to := ns;
    if fuel == 0 { return; }
    if e.update.None? {
      to := SameLoop(w, fuel - 1, e, env, h, ctx, lits, ns);
      return;
    }
    var o, ns1 := Sub(w, fuel, e.update.value, env, h, ns, h, ctx + [Scope(e.tag, true)], lits, ns);
    to := ns1;
    if o.Normal? {
      to := SameLoop(w, fuel - 1, e, env, o.heap, ctx, lits, ns1);
      Onward(w, h, ns, o.heap, ns1, EvalLoop(w.p, fuel - 1, e, env, o.heap, ctx), to);
    } else if o == Cont(|ctx|, HeapOf(o)) {
      to := SameUpdate(w, fuel - 1, e, env, o.heap, ctx, lits, ns1);
      Onward(w, h, ns, o.heap, ns1, EvalUpdate(w.p, fuel - 1, e, env, o.heap, ctx), to);
    }
  }

  lemma SameEach(w: World, fuel: nat, e: Expr, vec: Value, i: nat, env: Env, h: Heap, ctx: Ctx, lits: set<string>,
      ns: set<nat>) returns (to: set<nat>)
    requires Here(w, env, h, lits, ns) && e.ForEach? && Plain(e, lits, w.all) && Safe(vec, |h|, ns)
    ensures Matches(w, h, ns, EvalEach(w.p, fuel, e, vec, i, env, h, ctx),
                    EvalEach(ByText(w.p), fuel, e, vec, i, env, h, ctx), to)
    decreases fuel, e, 0
  {
    hide Good, Apart, Eval, EvalList, EvalReverse, EvalTarget, EvalStore, EvalAssign, Invoke, EachItem, Clear, Safe,
        Later;
    to := ns;
    LaterNow(h, ns);
    if fuel == 0 { return; }
    ItemSafe(h, vec, i, e.useIndex, ns, w.all);
    var item := EachItem(h, vec, i, e.useIndex);
    if item.Err? || item.value == End { return; }
    to := SameStore(w, fuel, e.lv, item.value, env, h, ctx + [Scope(e.tag, false)], lits, ns);
    var o1 := EvalStore(w.p, fuel, e.lv, item.value, env, h, ctx + [Scope(e.tag, false)]);
    if !o1.Normal? { return; }
    var ns1 := to;
    HereLater(w, env, h, lits, ns, o1.heap, ns1);
    var o2, ns2 := Sub(w, fuel, e.body, env, h, ns, o1.heap, ctx + [Scope(e.tag, true)], lits, ns1);
    to := ns2;
    if !HasHeap(o2) { return; }
    LaterYet(h, ns, o1.heap, ns1, o2.heap, ns2);
    SafeLater(vec, h, ns, o2.heap, ns2);
    if o2.Normal? || o2 == Cont(|ctx|, HeapOf(o2)) {
      to := SameEach(w, fuel - 1, e, vec, i + 1, env, o2.heap, ctx, lits, ns2);
      Onward(w, h, ns, o2.heap, ns2, EvalEach(w.p, fuel - 1, e, vec, i + 1, env, o2.heap, ctx), to);
    }
  }

  lemma SameList(w: World, fuel: nat, es: Exprs, env: Env, h: Heap, ctx: Ctx, lits: set<string>,
      ns: set<nat>) returns (to: set<nat>)
    requires Here(w, env, h, lits, ns) && PlainList(es, lits, w.all)
    ensures Matches(w, h, ns, EvalList(w.p, fuel, es, env, h, ctx), EvalList(ByText(w.p), fuel, es, env, h, ctx), to)
    decreases fuel, es, 0
  {
    hide Good, Apart, Eval;
    to := ns;
    if es.NoExprs? { return; }
    var o1, ns1 := Sub(w, fuel, es.head, env, h, ns, h, ctx, lits, ns);
    to := ns1;
    if !o1.Normal? { return; }
    to := SameList(w, fuel, es.tail, env, o1.heap, ctx, lits, ns1);
    var o2 := EvalList(w.p, fuel, es.tail, env, o1.heap, ctx);
    Onward(w, h, ns, o1.heap, ns1, o2, to);
    if o2.Normal? { SafeAllLater(o1.vals, o1.heap, ns1, o2.heap, to); }
  }

  lemma SameReverse(w: World, fuel: nat, es: Exprs, env: Env, h: Heap, ctx: Ctx, lits: set<string>,
      ns: set<nat>) returns (to: set<nat>)
    requires Here(w, env, h, lits, ns) && PlainList(es, lits, w.all)
    ensures Matches(w, h, ns, EvalReverse(w.p, fuel, es, env, h, ctx),
                    EvalReverse(ByText(w.p), fuel, es, env, h, ctx), to)
    decreases fuel, es, 0
  {
    hide Good, Apart, Eval;
    to := ns;
    if es.NoExprs? { return; }
    to := SameReverse(w, fuel, es.tail, env, h, ctx, lits, ns);
    var o1 := EvalReverse(w.p, fuel, es.tail, env, h, ctx);
    if !o1.Normal? { return; }
    var ns1 := to;
    HereLater(w, env, h, lits, ns, o1.heap, ns1);
    var o2, ns2 := Sub(w, fuel, es.head, env, h, ns, o1.heap, ctx, lits, ns1);
    to := ns2;
    if o2.Normal? { SafeAllLater(o1.vals, o1.heap, ns1, o2.heap, ns2); }
  }

  lemma SameTarget(w: World, fuel: nat, lv: LValue, env: Env, h: Heap, ctx: Ctx, lits: set<string>,
      ns: set<nat>) returns (to: set<nat>)
    requires Here(w, env, h, lits, ns) && PlainLV(lv, lits, w.all)
    ensures Matches(w, h, ns, EvalTarget(w.p, fuel, lv, env, h, ctx),
                    EvalTarget(ByText(w.p), fuel, lv, env, h, ctx), to)
    decreases fuel, lv, 0
  {
    hide Good, Apart, Eval;
    to := ns;
    match lv
    case LMember(obj, f) =>
      var o, ns1 := Sub(w, fuel, obj, env, h, ns, h, ctx, lits, ns);
      to := ns1;
    case LIndex(box, key) =>
      var o1, ns1 := Sub(w, fuel, box, env, h, ns, h, ctx, lits, ns);
      to := ns1;
      if o1.Normal? {
        var o2, ns2 := Sub(w, fuel, key, env, h, ns, o1.heap, ctx, lits, ns1);
        to := ns2;
        if o2.Normal? { SafeAllLater(o1.vals, o1.heap, ns1, o2.heap, ns2); }
      }
    case _ =>
  }

  lemma SameStore(w: World, fuel: nat, lv: LValue, v: Value, env: Env, h: Heap, ctx: Ctx, lits: set<string>,
      ns: set<nat>) returns (to: set<nat>)
    requires Here(w, env, h, lits, ns) && PlainLV(lv, lits, w.all) && Safe(v, |h|, ns)
    ensures Matches(w, h, ns, EvalStore(w.p, fuel, lv, v, env, h, ctx),
                    EvalStore(ByText(w.p), fuel, lv, v, env, h, ctx), to)
    decreases fuel, lv, 1
  {
    hide Good, Apart, EvalTarget, Store;
    to := SameTarget(w, fuel, lv, env, h, ctx, lits, ns);
    var o := EvalTarget(w.p, fuel, lv, env, h, ctx);
    if o.Normal? {
      HereLater(w, env, h, lits, ns, o.heap, to);
      SafeLater(v, h, ns, o.heap, to);
      StoreKeeps(w, lv, env, o.heap, o.vals, v, lits, to);
    }
  }

  lemma SameStores(w: World, fuel: nat, lvs: LValues, vals: seq<Value>, env: Env, h: Heap, ctx: Ctx,
      lits: set<string>, ns: set<nat>) returns (to: set<nat>)
    requires Here(w, env, h, lits, ns) && PlainLVs(lvs, lits, w.all) && SafeAll(vals, |h|, ns) && |vals| == CountLV(lvs)
    ensures Matches(w, h, ns, EvalAssign(w.p, fuel, lvs, vals, env, h, ctx),
                    EvalAssign(ByText(w.p), fuel, lvs, vals, env, h, ctx), to)
    decreases fuel, lvs, 0
  {
    hide Good, Apart, EvalStore;
    var v := vals[|vals| - 1];
    to := SameStore(w, fuel, lvs.lv, v, env, h, ctx, lits, ns);
    var o := EvalStore(w.p, fuel, lvs.lv, v, env, h, ctx);
    if lvs.MoreLV? && o.Normal? {
      var ns1 := to;
      HereLater(w, env, h, lits, ns, o.heap, ns1);
      SafeAllLater(vals[..|vals| - 1], h, ns, o.heap, ns1);
      to := SameStores(w, fuel, lvs.rest, vals[..|vals| - 1], env, o.heap, ctx, lits, ns1);
      Onward(w, h, ns, o.heap, ns1, EvalAssign(w.p, fuel, lvs.rest, vals[..|vals| - 1], env, o.heap, ctx), to);
    }
  }

  /** What is in order behind a later heap is in order behind an earlier one. */
  lemma Onward(w: World, h: Heap, ns: set<nat>, h1: Heap, ns1: set<nat>, o: Outcome, to: set<nat>)
    requires Later(h, ns, h1, ns1) && Matches(w, h1, ns1, o, o, to)
    ensures Matches(w, h, ns, o, o, to)
  {
    hide Good;
    if HasHeap(o) { LaterYet(h, ns, h1, ns1, o.heap, to); }
  }

  lemma StoreKeeps(w: World, lv: LValue, env: Env, h: Heap, at: seq<Value>, v: Value, lits: set<string>, ns: set<nat>)
    requires Here(w, env, h, lits, ns) && PlainLV(lv, lits, w.all) && SafeAll(at, |h|, ns) && Safe(v, |h|, ns)
    ensures var r := Store(lv, env, h, at, v, w.p.host);
      && r == Store(lv, env, h, at, v, w.p.host.(byText := true))
      && (r.Ok? ==> Good(r.value, ns, w.all) && |r.value| == |h|)
  {
    hide Good, Apart, SetSymbol, HashSet, ContainerSet;
    match lv
    case LSym(x) => AssignKeeps(h, env, x, v, lits, ns, w.all);
    case LVar(x) => AssignKeeps(h, env, x, v, lits, ns, w.all);
    case LMember(_, f) =>
      if |at| == 2 && IsHash(h, at[0]) {
        assert Safe(at[0], |h|, ns);
        HashSetKeeps(h, at[0].addr, Name(env.names, f), v, ns, w.all);
      }
    case LIndex(_, _) =>
      if |at| == 2 { ContainerKeeps(w.p.host, h, at[0], at[1], v, ns, w.all); }
  }

  lemma LoadSame(w: World, lv: LValue, env: Env, h: Heap, at: seq<Value>, lits: set<string>, ns: set<nat>)
    requires Here(w, env, h, lits, ns) && PlainLV(lv, lits, w.all)
    ensures var r := Load(lv, env, h, at, w.p.host);
      r == Load(lv, env, h, at, w.p.host.(byText := true)) && (r.Ok? ==> Safe(r.value, |h|, ns))
  {
    hide Good, Apart, GetLocal, GetMember, ContainerGet;
    match lv
    case LSym(x) => LookupSame(w.p.host, h, env, x, lits, ns, w.all);
    case LVar(x) => LookupSame(w.p.host, h, env, x, lits, ns, w.all);
    case LMember(_, f) => if |at| == 2 { GetMemberSafe(h, at[0], f, ns, w.all); }
    case LIndex(_, _) => if |at| == 2 { ContainerSafe(w.p.host, h, at[0], at[1], ns, w.all); }
  }

  /** The value `x op y` of an assignment with an operator, and its store. */
  function StoreBack(p: Program, e: Expr, env: Env, h: Heap, at: seq<Value>, x: Value, y: Value): Outcome
    requires e.OpAssign?
  {
    match ApplyBinary(p.host, e.op, h, x, y)
    case Err(m) => Fail(m)
    case Ok((z, h3)) =>
      match Store(e.lv, env, h3, at, z, p.host)
      case Err(m) => Fail(m)
      case Ok(h4) => Normal([z], h4)
  }

  lemma StoreBackSame(w: World, e: Expr, env: Env, h: Heap, at: seq<Value>, x: Value, y: Value, h0: Heap, ns0: set<nat>,
      lits: set<string>, ns: set<nat>)
    requires Here(w, env, h, lits, ns) && e.OpAssign? && PlainLV(e.lv, lits, w.all) && SafeAll(at, |h|, ns)
    requires Safe(x, |h|, ns) && Safe(y, |h|, ns) && Later(h0, ns0, h, ns)
    ensures Matches(w, h0, ns0, StoreBack(w.p, e, env, h, at, x, y), StoreBack(ByText(w.p), e, env, h, at, x, y), ns)
  {
    hide Good, Apart, ApplyBinary, Store;
    BinaryKeeps(w.p.host, e.op, h, x, y, ns, w.all);
    var r := ApplyBinary(w.p.host, e.op, h, x, y);
    if r.Ok? {
      HereLater(w, env, h, lits, ns, r.value.1, ns);
      SafeAllLater(at, h, ns, r.value.1, ns);
      StoreKeeps(w, e.lv, env, r.value.1, at, r.value.0, lits, ns);
    }
  }

  lemma FieldKeeps(h: Heap, hash: Value, k: Value, v: Value, ns: set<nat>, all: set<string>)
    requires Good(h, ns, all) && Safe(hash, |h|, ns) && Safe(v, |h|, ns)
    ensures Good(PutField(h, hash, k, v), ns, all) && |PutField(h, hash, k, v)| == |h|
  {
    hide Good, HashSet;
    if hash.Hash? { HashSetKeeps(h, hash.addr, k, v, ns, all); }
  }

  // ----- calls -----

  lemma InvokeFails(p: Program, fuel: nat, call: Expr, m: string)
    ensures Invoke(p, fuel, call, Err(m)) == Invoke(ByText(p), fuel, call, Err(m)) == Fail(m)
  {
  }

  lemma SameInvoke(w: World, fuel: nat, call: Expr, en: Entry, ns: set<nat>) returns (to: set<nat>)
    requires EntryOk(w, en, ns)
    ensures Matches(w, en.heap, ns, Invoke(w.p, fuel, call, Ok(en)), Invoke(ByText(w.p), fuel, call, Ok(en)), to)
    decreases fuel, call, 0
  {
    hide Good, Eval, Plain, PlainParams, EnvOk;
    to := ns;
    if fuel > 0 {
      to := SameExpr(w, fuel - 1, w.p.bodies[en.code], en.env, en.heap, [], w.lits[en.code], ns);
    }
  }

  lemma KeyFitsIn(w: World, fuel: nat, k: Expr, env: Env, h: Heap, ctx: Ctx, lits: set<string>)
    requires Clear(env.names, lits)
    requires k.NumLit? || ((k.StrLit? || k.SymLit?) && (k.s in w.all ==> k.s !in lits))
    ensures var o := Eval(w.p, fuel, k, env, h, ctx);
      o == Eval(ByText(w.p), fuel, k, env, h, ctx) && o.Normal? && o.heap == h && KeyFits(Top(o), w.all)
  {
  }

  /** The hash of named arguments can become a namespace: nothing refers to it but the call. */
  lemma SameNamed(w: World, fuel: nat, e: Expr, env: Env, h: Heap, ctx: Ctx, lits: set<string>, ns: set<nat>)
    returns (to: set<nat>)
    requires Here(w, env, h, lits, ns) && Plain(e, lits, w.all) && Named(e, lits, w.all)
    ensures var o := Eval(w.p, fuel, e, env, h, ctx);
      && o == Eval(ByText(w.p), fuel, e, env, h, ctx)
      && (o.Normal? ==> Good(o.heap, to, w.all) && Later(h, ns, o.heap, to) && Top(o).Hash? && Top(o).addr in to)
      && (!o.Normal? ==> Matches(w, h, ns, o, o, to))
    decreases fuel, e, 1
  {
    hide Good, Apart, Matches;
    if e.NewHash? {
      NothingFits(|h|, ns, w.all);
      to := NewSpace(h, map[], ns, w.all);
    } else {
      to := SameNamedAppend(w, fuel, e, env, h, ctx, lits, ns);
    }
  }

  lemma SameNamedAppend(w: World, fuel: nat, e: Expr, env: Env, h: Heap, ctx: Ctx, lits: set<string>, ns: set<nat>)
    returns (to: set<nat>)
    requires Here(w, env, h, lits, ns) && Plain(e, lits, w.all) && Named(e, lits, w.all) && e.HashAppend?
    ensures var o := EvalHashAppend(w.p, fuel, e, env, h, ctx);
      && o == EvalHashAppend(ByText(w.p), fuel, e, env, h, ctx)
      && (o.Normal? ==> Good(o.heap, to, w.all) && Later(h, ns, o.heap, to) && Top(o).Hash? && Top(o).addr in to)
      && (!o.Normal? ==> Matches(w, h, ns, o, o, to))
    decreases fuel, e, 0
  {
    hide Good, Apart, Eval, Matches, HashSet;
    to := SameNamed(w, fuel, e.hash, env, h, ctx, lits, ns);
    var o1 := Eval(w.p, fuel, e.hash, env, h, ctx);
    if !o1.Normal? { return; }
    var ns1 := to;
    HereLater(w, env, h, lits, ns, o1.heap, ns1);
    KeyFitsIn(w, fuel, e.key, env, o1.heap, ctx, lits);
    var o2 := Eval(w.p, fuel, e.key, env, o1.heap, ctx);
    var o3, ns3 := Sub(w, fuel, e.val, env, h, ns, o1.heap, ctx, lits, ns1);
    to := ns3;
    if o3.Normal? { HashSetKeeps(o3.heap, Top(o1).addr, Top(o2), Top(o3), ns3, w.all); }
  }

  // ----- the whole -----

  lemma SameLeaf(w: World, fuel: nat, e: Expr, env: Env, h: Heap, ctx: Ctx, lits: set<string>, ns: set<nat>)
    returns (to: set<nat>)
    requires Here(w, env, h, lits, ns) && Plain(e, lits, w.all) && IsLeaf(e)
    ensures Matches(w, h, ns, EvalLeaf(w.p.host, e, env, h), EvalLeaf(ByText(w.p).host, e, env, h), to)
  {
    hide Good, Apart, GetLocal;
    to := ns;
    match e
    case Sym(x) => LookupSame(w.p.host, h, env, x, lits, ns, w.all);
    case Lambda(i) => to := AllocKeeps(h, FuncObj(i, [env.locals] + env.scopes), ns, w.all, false);
    case NewVec => to := AllocKeeps(h, VecObj([]), ns, w.all, false);
    case NewHash => to := AllocKeeps(h, HashObj(map[]), ns, w.all, false);
    case _ =>
  }

  lemma SameOperator(w: World, fuel: nat, e: Expr, env: Env, h: Heap, ctx: Ctx, lits: set<string>, ns: set<nat>)
    returns (to: set<nat>)
    requires Here(w, env, h, lits, ns) && Plain(e, lits, w.all)
    requires e.Unary? || e.Binary? || e.HashAppend? || e.Member? || e.Return?
    ensures Matches(w, h, ns, Eval(w.p, fuel, e, env, h, ctx), Eval(ByText(w.p), fuel, e, env, h, ctx), to)
    decreases fuel, e, 3
  {
    hide Here, Matches, Plain, EvalBinary, EvalHashAppend, EvalMember, EvalReturn, EvalUnary;
    match e
    case Unary(_, _) => to := SameUnary(w, fuel, e, env, h, ctx, lits, ns);
    case Binary(_, _, _) => to := SameBinary(w, fuel, e, env, h, ctx, lits, ns);
    case HashAppend(_, _, _) => to := SameHashAppend(w, fuel, e, env, h, ctx, lits, ns);
    case Member(_, _) => to := SameMember(w, fuel, e, env, h, ctx, lits, ns);
    case Return(_) => to := SameReturn(w, fuel, e, env, h, ctx, lits, ns);
  }

  lemma SameBranch(w: World, fuel: nat, e: Expr, env: Env, h: Heap, ctx: Ctx, lits: set<string>, ns: set<nat>)
    returns (to: set<nat>)
    requires Here(w, env, h, lits, ns) && Plain(e, lits, w.all)
    requires e.And? || e.Or? || e.Cond? || e.Semi?
    ensures Matches(w, h, ns, Eval(w.p, fuel, e, env, h, ctx), Eval(ByText(w.p), fuel, e, env, h, ctx), to)
    decreases fuel, e, 3
  {
    hide Here, Matches, Plain, EvalCond, EvalSemi, EvalShort;
    match e
    case And(_, _) => to := SameShort(w, fuel, e, env, h, ctx, lits, ns);
    case Or(_, _) => to := SameShort(w, fuel, e, env, h, ctx, lits, ns);
    case Cond(_, _, _) => to := SameCond(w, fuel, e, env, h, ctx, lits, ns);
    case Semi(_, _) => to := SameSemi(w, fuel, e, env, h, ctx, lits, ns);
  }

  lemma SameStatement(w: World, fuel: nat, e: Expr, env: Env, h: Heap, ctx: Ctx, lits: set<string>, ns: set<nat>)
    returns (to: set<nat>)
    requires Here(w, env, h, lits, ns) && Plain(e, lits, w.all)
    requires e.Assign? || e.OpAssign? || e.MultiAssign? || e.Unpack? || e.Loop? || e.ForEach?
    ensures Matches(w, h, ns, Eval(w.p, fuel, e, env, h, ctx), Eval(ByText(w.p), fuel, e, env, h, ctx), to)
    decreases fuel, e, 3
  {
    hide Here, Matches, Plain, EvalForEach, EvalLoop, EvalMultiAssign, EvalOpAssign, EvalPlainAssign, EvalUnpack;
    match e
    case Assign(_, _) => to := SamePlainAssign(w, fuel, e, env, h, ctx, lits, ns);
    case OpAssign(_, _, _) => to := SameOpAssign(w, fuel, e, env, h, ctx, lits, ns);
    case MultiAssign(_, _) => to := SameMultiAssign(w, fuel, e, env, h, ctx, lits, ns);
    case Unpack(_, _) => to := SameUnpack(w, fuel, e, env, h, ctx, lits, ns);
    case Loop(_, _, _, _) => to := SameLoop(w, fuel, e, env, h, ctx, lits, ns);
    case ForEach(_, _, _, _, _) => to := SameForEach(w, fuel, e, env, h, ctx, lits, ns);
  }

  lemma SameCalling(w: World, fuel: nat, e: Expr, env: Env, h: Heap, ctx: Ctx, lits: set<string>, ns: set<nat>)
    returns (to: set<nat>)
    requires Here(w, env, h, lits, ns) && Plain(e, lits, w.all)
    requires e.Call? || e.MethodCall? || e.NamedCall? || e.NamedMethodCall?
    ensures Matches(w, h, ns, Eval(w.p, fuel, e, env, h, ctx), Eval(ByText(w.p), fuel, e, env, h, ctx), to)
    decreases fuel, e, 3
  {
    hide Here, Matches, Plain, EvalCall, EvalMethodCall, EvalNamedCall, EvalNamedMethodCall;
    match e
    case Call(_, _) => to := SameCall(w, fuel, e, env, h, ctx, lits, ns);
    case MethodCall(_, _, _) => to := SameMethodCall(w, fuel, e, env, h, ctx, lits, ns);
    case NamedCall(_, _) => to := SameNamedCall(w, fuel, e, env, h, ctx, lits, ns);
    case NamedMethodCall(_, _, _) => to := SameNamedMethodCall(w, fuel, e, env, h, ctx, lits, ns);
  }

  /** Every evaluation of such a program, of any expression with any fuel, is the evaluation in
      which symbols are found by text. */
  lemma {:induction false} SameExpr(w: World, fuel: nat, e: Expr, env: Env, h: Heap, ctx: Ctx, lits: set<string>,
      ns: set<nat>) returns (to: set<nat>)
    requires Here(w, env, h, lits, ns) && Plain(e, lits, w.all)
    ensures Matches(w, h, ns, Eval(w.p, fuel, e, env, h, ctx), Eval(ByText(w.p), fuel, e, env, h, ctx), to)
    decreases fuel, e, 4
  {
    if IsLeaf(e) {
      hide Here, Matches, Plain;
      to := SameLeaf(w, fuel, e, env, h, ctx, lits, ns);
    } else if e.Break? || e.Continue? {
      hide Good, Apart;
      to := ns;
    } else {
      hide Here, Matches, Plain, Eval;
      if e.Call? || e.MethodCall? || e.NamedCall? || e.NamedMethodCall? {
        to := SameCalling(w, fuel, e, env, h, ctx, lits, ns);
      } else if e.Assign? || e.OpAssign? || e.MultiAssign? || e.Unpack? || e.Loop? || e.ForEach? {
        to := SameStatement(w, fuel, e, env, h, ctx, lits, ns);
      } else if e.And? || e.Or? || e.Cond? || e.Semi? {
        to := SameBranch(w, fuel, e, env, h, ctx, lits, ns);
      } else {
        to := SameOperator(w, fuel, e, env, h, ctx, lits, ns);
      }
    }
  }

  /** What the machine does, which tries the object of a symbol first, is what the program means
      by text: it stops with a result exactly when that meaning has it. */
  lemma SameByText(w: World, m: Image, f: nat, env: Env, h: Heap, ns: set<nat>, st: Status)
    requires Linked(w.p, m) && f < |w.p.bodies| && env.names == w.p.params[f].names && !st.Running?
    requires |w.lits| == |w.p.bodies| && Here(w, env, h, w.lits[f], ns)
    ensures (exists n: nat :: Steps(m, n, Start(f, env, h)) == st)
            <==> (exists fuel: nat :: var o := Meaning(ByText(w.p), fuel, f, env, h); !o.Timeout? && StatusOf(o) == st)
  {
    hide Step, Eval, Linked, Good, Plain, PlainParams;
    forall fuel: nat
      ensures Meaning(w.p, fuel, f, env, h) == Meaning(ByText(w.p), fuel, f, env, h)
    {
      var _ := SameExpr(w, fuel, w.p.bodies[f], env, h, [], w.lits[f], ns);
    }
    SameResults(w.p, m, f, env, h, st);
    if fuel: nat :| var o := Meaning(ByText(w.p), fuel, f, env, h); !o.Timeout? && StatusOf(o) == st {
      assert Meaning(w.p, fuel, f, env, h) == Meaning(ByText(w.p), fuel, f, env, h);
    }
  }

  // ----- and when it does not -----

  /** `var x = 20; func { "x"; var x = 10; func { x }() }()`: in the second function the literal comes
      before the symbol and is the object that the function's constants have for both. */
  function Shadowing(host: Host): Program {
    var none := Params([], [], "arg", false, x => Interned);
    Program(host, [none, none.(names := x => if x == "x" then Pooled(1, 0) else Interned), none],
            [Semi(Assign(LVar("x"), NumLit(20.0)), Call(Lambda(1), NoExprs)),
             Semi(StrLit("x"), Semi(Assign(LVar("x"), NumLit(10.0)), Call(Lambda(2), NoExprs))),
             Sym("x")])
  }

  lemma EntersEmpty(params: seq<Params>, h: Heap, f: nat)
    requires f < |h| && h[f].FuncObj? && h[f].code < |params|
    requires var p := params[h[f].code]; p.args == [] && p.opts == [] && !p.needVector
    ensures EnterCall(params, h, Func(f), None, [])
            == Ok(Entry(h[f].code, Env(|h|, h[f].scopes, params[h[f].code].names), h + [HashObj(map[])]))
  {
    var none: Members := map[];
    assert none + none + none == none;
  }

  lemma Declares(p: Program, fuel: nat, x: string, n: real, env: Env, h: Heap)
    ensures Eval(p, fuel, Assign(LVar(x), NumLit(n)), env, h, [])
            == Normal([Num(n)], HashSet(h, env.locals, Name(env.names, x), Num(n)))
  {
    hide HashSet;
    var o := Eval(p, fuel, NumLit(n), env, h, []);
    assert o == Normal([Num(n)], h);
    assert EvalTarget(p, fuel, LVar(x), env, h, []) == Normal([Name(env.names, x)], h);
    assert EvalStore(p, fuel, LVar(x), Num(n), env, h, []).Normal?;
    var e := Assign(LVar(x), NumLit(n));
    assert Eval(p, fuel, e, env, h, []) == EvalPlainAssign(p, fuel, e, env, h, []);
  }

  /** A call of function `i` without arguments, made on the spot. */
  lemma CallsOnTheSpot(p: Program, fuel: nat, i: nat, env: Env, h: Heap)
    requires fuel > 0 && i < |p.params| == |p.bodies|
    requires var q := p.params[i]; q.args == [] && q.opts == [] && !q.needVector
    ensures var h1 := h + [FuncObj(i, [env.locals] + env.scopes)];
      var o := Eval(p, fuel - 1, p.bodies[i], Env(|h| + 1, [env.locals] + env.scopes, p.params[i].names),
                    h1 + [HashObj(map[])], []);
      o.Normal? ==> Eval(p, fuel, Call(Lambda(i), NoExprs), env, h, []) == o
  {
    hide EnterCall;
    var h1 := h + [FuncObj(i, [env.locals] + env.scopes)];
    EntersEmpty(p.params, h1, |h|);
    assert Eval(p, fuel, Lambda(i), env, h, []) == Normal([Func(|h|)], h1);
    assert EvalList(p, fuel, NoExprs, env, h1, []) == Normal([], h1);
    var e := Call(Lambda(i), NoExprs);
    assert Eval(p, fuel, e, env, h, []) == EvalCall(p, fuel, e, env, h, []);
    assert EvalCall(p, fuel, e, env, h, []) == Invoke(p, fuel, e, EnterCall(p.params, h1, Func(|h|), None, []));
  }

  lemma InOrder(p: Program, fuel: nat, a: Expr, b: Expr, env: Env, h: Heap)
    requires Eval(p, fuel, a, env, h, []).Normal?
    ensures Eval(p, fuel, Semi(a, b), env, h, []) == Eval(p, fuel, b, env, Eval(p, fuel, a, env, h, []).heap, [])
  {
    SemiIs(p, fuel, a, b, env, h);
    hide Eval;
  }

  lemma SemiIs(p: Program, fuel: nat, a: Expr, b: Expr, env: Env, h: Heap)
    ensures Eval(p, fuel, Semi(a, b), env, h, []) == EvalSemi(p, fuel, Semi(a, b), env, h, [])
  {
    hide EvalSemi;
  }

  /** The value by text is 10, the innermost binding; the interpreter answers 20. */
  lemma LiteralChangesMeaning(host: Host)
    ensures var o := Meaning(Shadowing(host), 2, 0, Env(0, [], x => Interned), [HashObj(map[])]);
      o.Normal? && o.vals == [Num(if host.byText then 10.0 else 20.0)]
  {
    hide Eval, GetLocal;
    var p, env: Env, h: Heap := Shadowing(host), Env(0, [], x => Interned), [HashObj(map[])];
    var first, rest := p.bodies[0].first, p.bodies[0].rest;
    var h1: Heap := [HashObj(map[Text("x") := Cell(Text("x"), Num(20.0))])];
    Declares(p, 2, "x", 20.0, env, h);
    assert Name(env.names, "x") == Text("x") && HashSet(h, 0, Text("x"), Num(20.0)) == h1;
    assert [env.locals] + env.scopes == [0];
    InOrder(p, 2, first, rest, env, h);
    MiddleAnswers(host, h1 + [FuncObj(1, [0])]);
    CallsOnTheSpot(p, 2, 1, env, h1);
  }

  /** The second function, from its namespace at address 2. */
  lemma MiddleAnswers(host: Host, h: Heap)
    requires h == [HashObj(map[Text("x") := Cell(Text("x"), Num(20.0))]), FuncObj(1, [0])]
    ensures var p := Shadowing(host);
      var o := Eval(p, 1, p.bodies[1], Env(2, [0], p.params[1].names), h + [HashObj(map[])], []);
      o.Normal? && o.vals == [Num(if host.byText then 10.0 else 20.0)]
  {
    hide Eval, GetLocal;
    var p, lit := Shadowing(host), Str("x", Pooled(1, 0));
    var env, h2 := Env(2, [0], p.params[1].names), h + [HashObj(map[])];
    var h3, rest := h + [HashObj(map[Text("x") := Cell(lit, Num(10.0))])], p.bodies[1].rest;
    LiteralIs(p, 1, "x", env, h2);
    InOrder(p, 1, StrLit("x"), rest, env, h2);
    Declares(p, 1, "x", 10.0, env, h2);
    assert HashSet(h2, 2, lit, Num(10.0)) == h3;
    InOrder(p, 1, rest.first, rest.rest, env, h2);
    CallsOnTheSpot(p, 1, 2, env, h3);
    var h5, inner := h3 + [FuncObj(2, [2, 0])] + [HashObj(map[])], Env(4, [2, 0], p.params[2].names);
    assert [2] + [0] == [2, 0];
    Innermost(host, h5, inner);
    SymbolIs(p, 0, "x", inner, h5);
  }

  lemma LiteralIs(p: Program, fuel: nat, x: string, env: Env, h: Heap)
    ensures Eval(p, fuel, StrLit(x), env, h, []) == Normal([Name(env.names, x)], h)
  {
  }

  lemma SymbolIs(p: Program, fuel: nat, x: string, env: Env, h: Heap)
    ensures Eval(p, fuel, Sym(x), env, h, []) == Lift(GetLocal(p.host, h, env, Name(env.names, x)), h)
  {
  }

  lemma Innermost(host: Host, h: Heap, env: Env)
    requires |h| == 5 && env.locals == 4 && env.scopes == [2, 0] && h[4] == HashObj(map[])
    requires h[2] == HashObj(map[Text("x") := Cell(Str("x", Pooled(1, 0)), Num(10.0))])
    requires h[0] == HashObj(map[Text("x") := Cell(Text("x"), Num(20.0))])
    ensures GetLocal(host, h, env, Text("x")) == Ok(Num(if host.byText then 10.0 else 20.0))
  {
    var x := Text("x");
    assert FindScope(h, [2, 0], x) == Some(2) && FindObject(h, [0], x) == Some(0);
    assert [2, 0][1..] == [0];
    assert FindObject(h, [2, 0], x) == Some(0);
    assert [env.locals] + env.scopes == [4, 2, 0] && [4, 2, 0][1..] == [2, 0];
  }
}
