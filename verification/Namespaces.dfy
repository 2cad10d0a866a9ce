/** What evaluation keeps of the namespaces of calls, in programs whose literals do not spell
    symbols: every entry for a symbol is made under the symbol itself, and no value refers
    to a namespace. So the pass by object finds what the pass by text finds. */
module Namespaces {
  import opened Basics
  import opened Values
  import opened Syntax
  import opened Semantics

  // ----- the condition -----

  /** The same program with symbols found by text alone. */
  function ByText(p: Program): Program { p.(host := p.host.(byText := true)) }

  /** No symbol of the expression is spelled by a literal of its function, and the keys of
      named arguments are constants that spell symbols of the program as symbols only. */
  predicate Plain(e: Expr, lits: set<string>, all: set<string>) {
    match e
    case Sym(x) => x in all && x !in lits
    case Unary(_, a) => Plain(a, lits, all)
    case Binary(_, l, r) => Plain(l, lits, all) && Plain(r, lits, all)
    case HashAppend(h, k, v) => Plain(h, lits, all) && Plain(k, lits, all) && Plain(v, lits, all)
    case Member(o, _) => Plain(o, lits, all)
    case And(l, r) => Plain(l, lits, all) && Plain(r, lits, all)
    case Or(l, r) => Plain(l, lits, all) && Plain(r, lits, all)
    case Cond(t, a, b) => Plain(t, lits, all) && Plain(a, lits, all) && Plain(b, lits, all)
    case Semi(a, b) => Plain(a, lits, all) && Plain(b, lits, all)
    case Assign(lv, r) => PlainLV(lv, lits, all) && Plain(r, lits, all)
    case OpAssign(_, lv, r) => PlainLV(lv, lits, all) && Plain(r, lits, all)
    case MultiAssign(lvs, rvs) => PlainLVs(lvs, lits, all) && PlainList(rvs, lits, all)
    case Unpack(lvs, r) => PlainLVs(lvs, lits, all) && Plain(r, lits, all)
    case Loop(_, t, u, b) =>
      Plain(t, lits, all) && Plain(b, lits, all) && (u.Some? ==> Plain(u.value, lits, all))
    case ForEach(_, _, lv, v, b) => Plain(v, lits, all) && PlainLV(lv, lits, all) && Plain(b, lits, all)
    case Return(a) => Plain(a, lits, all)
    case Call(f, args) => Plain(f, lits, all) && PlainList(args, lits, all)
    case MethodCall(o, _, args) => Plain(o, lits, all) && PlainList(args, lits, all)
    case NamedCall(f, h) => Plain(f, lits, all) && Plain(h, lits, all) && Named(h, lits, all)
    case NamedMethodCall(o, _, h) => Plain(o, lits, all) && Plain(h, lits, all) && Named(h, lits, all)
    case _ => true
  }

  predicate PlainLV(lv: LValue, lits: set<string>, all: set<string>) {
    match lv
    case LSym(x) => x in all && x !in lits
    case LVar(x) => x in all && x !in lits
    case LMember(o, _) => Plain(o, lits, all)
    case LIndex(b, k) => Plain(b, lits, all) && Plain(k, lits, all)
  }

  predicate PlainList(es: Exprs, lits: set<string>, all: set<string>) {
    match es
    case NoExprs => true
    case More(e, t) => Plain(e, lits, all) && PlainList(t, lits, all)
  }

  predicate PlainLVs(lvs: LValues, lits: set<string>, all: set<string>) {
    match lvs
    case OneLV(lv) => PlainLV(lv, lits, all)
    case MoreLV(lv, t) => PlainLV(lv, lits, all) && PlainLVs(t, lits, all)
  }

  /** The hash that the generator makes for named arguments. */
  predicate Named(e: Expr, lits: set<string>, all: set<string>) {
    match e
    case NewHash => true
    case HashAppend(h, k, _) =>
      && Named(h, lits, all)
      && (k.NumLit? || ((k.StrLit? || k.SymLit?) && (k.s in all ==> k.s !in lits)))
    case _ => false
  }

  predicate PlainParams(ps: Params, lits: set<string>, all: set<string>) {
    && (forall x :: x in ps.args ==> x in all && x !in lits)
    && (forall i :: 0 <= i < |ps.opts| ==>
          ps.opts[i].0 in all && ps.opts[i].0 !in lits && (ps.opts[i].1.Nil? || IsScalar(ps.opts[i].1)))
    && ps.rest in all && ps.rest !in lits
  }

  /** A program, what the literals of each function are among, and its symbols. */
  datatype World = World(p: Program, lits: seq<set<string>>, all: set<string>)

  /** Outside the literals a function's constants are symbols, which `Codegen.GenProgram` ensures. */
  ghost predicate Clear(names: string -> Ident, lits: set<string>) { forall x :: x !in lits ==> names(x) == Interned }

  ghost predicate Apart(w: World) {
    && |w.lits| == |w.p.params| == |w.p.bodies|
    && forall f :: 0 <= f < |w.lits| ==>
         && Plain(w.p.bodies[f], w.lits[f], w.all) && PlainParams(w.p.params[f], w.lits[f], w.all)
         && Clear(w.p.params[f].names, w.lits[f])
  }

  // ----- heaps -----

  /** The entries for symbols were made under the symbols. */
  ghost predicate Space(m: Members, all: set<string>) { forall k :: k in m && k.Str? && k.s in all ==> m[k].key == k }

  /** Not a namespace: no value refers to one. */
  predicate Safe(v: Value, n: nat, ns: set<nat>) { v.Hash? ==> v.addr < n && v.addr !in ns }

  ghost predicate SafeAll(vs: seq<Value>, n: nat, ns: set<nat>) { forall v :: v in vs ==> Safe(v, n, ns) }

  ghost predicate SafeIn(m: Members, n: nat, ns: set<nat>) { forall k :: k in m ==> Safe(m[k].val, n, ns) }

  ghost predicate ObjOk(o: Obj, n: nat, ns: set<nat>) {
    match o
    case VecObj(vs) => SafeAll(vs, n, ns)
    case HashObj(m) => SafeIn(m, n, ns)
    case FuncObj(_, scopes) => forall a :: a in scopes ==> a in ns
  }

  /** The hashes at `ns` are the namespaces; only calls and closures refer to them. */
  ghost predicate Good(h: Heap, ns: set<nat>, all: set<string>) {
    && (forall a :: a in ns ==> a < |h| && h[a].HashObj? && Space(h[a].members, all))
    && (forall a :: 0 <= a < |h| ==> ObjOk(h[a], |h|, ns))
  }

  ghost predicate EnvOk(env: Env, lits: set<string>, ns: set<nat>) {
    env.locals in ns && (forall a :: a in env.scopes ==> a in ns) && Clear(env.names, lits)
  }

  /** A later heap, with more namespaces that are all new. */
  ghost predicate Later(h: Heap, ns: set<nat>, h1: Heap, ns1: set<nat>) {
    |h| <= |h1| && ns <= ns1 && forall a :: a in ns1 && a !in ns ==> a >= |h|
  }

  lemma SafeLater(v: Value, h: Heap, ns: set<nat>, h1: Heap, ns1: set<nat>)
    requires Safe(v, |h|, ns) && Later(h, ns, h1, ns1)
    ensures Safe(v, |h1|, ns1)
  {
  }

  lemma SafeAllLater(vs: seq<Value>, h: Heap, ns: set<nat>, h1: Heap, ns1: set<nat>)
    requires SafeAll(vs, |h|, ns) && Later(h, ns, h1, ns1)
    ensures SafeAll(vs, |h1|, ns1)
  {
  }

  lemma LaterNow(h: Heap, ns: set<nat>)
    ensures Later(h, ns, h, ns)
  {
  }

  lemma LaterYet(h: Heap, ns: set<nat>, h1: Heap, ns1: set<nat>, h2: Heap, ns2: set<nat>)
    requires Later(h, ns, h1, ns1) && Later(h1, ns1, h2, ns2)
    ensures Later(h, ns, h2, ns2)
  {
  }

  lemma ObjLater(o: Obj, h: Heap, ns: set<nat>, h1: Heap, ns1: set<nat>)
    requires ObjOk(o, |h|, ns) && Later(h, ns, h1, ns1)
    ensures ObjOk(o, |h1|, ns1)
  {
  }

  /** A new object at the end of the heap, which may be a namespace. */
  lemma AllocKeeps(h: Heap, o: Obj, ns: set<nat>, all: set<string>, space: bool) returns (ns1: set<nat>)
    requires Good(h, ns, all) && ObjOk(o, |h|, ns) && (space ==> o.HashObj? && Space(o.members, all))
    ensures ns1 == (if space then ns + {|h|} else ns)
    ensures Good(h + [o], ns1, all) && Later(h, ns, h + [o], ns1) && (|h| in ns1 <==> space)
  {
    hide ObjOk, Space;
    ns1 := if space then ns + {|h|} else ns;
    var h1 := h + [o];
    forall a | 0 <= a < |h1|
      ensures ObjOk(h1[a], |h1|, ns1)
    {
      ObjLater(h1[a], h, ns, h1, ns1);
    }
  }

  lemma WriteKeeps(h: Heap, a: nat, o: Obj, ns: set<nat>, all: set<string>)
    requires Good(h, ns, all) && a < |h| && ObjOk(o, |h|, ns)
    requires a in ns ==> o.HashObj? && Space(o.members, all)
    ensures Good(h[a := o], ns, all)
  {
    hide ObjOk, Space;
  }

  /** A key that may be entered into a namespace. */
  predicate KeyFits(key: Value, all: set<string>) { key.Str? && key.s in all ==> key.id == Interned }

  lemma PutKeeps(m: Members, key: Value, v: Value, n: nat, ns: set<nat>, all: set<string>)
    requires SafeIn(m, n, ns) && Safe(v, n, ns)
    ensures SafeIn(WithEntry(m, key, v), n, ns)
    ensures Space(m, all) && KeyFits(key, all) ==> Space(WithEntry(m, key, v), all)
  {
  }

  lemma HashSetKeeps(h: Heap, a: nat, key: Value, v: Value, ns: set<nat>, all: set<string>)
    requires Good(h, ns, all) && Safe(v, |h|, ns) && (a in ns ==> KeyFits(key, all))
    ensures Good(HashSet(h, a, key, v), ns, all) && |HashSet(h, a, key, v)| == |h|
  {
    hide Space, WithEntry, SafeIn, Safe, KeyFits;
    if a < |h| && h[a].HashObj? {
      assert ObjOk(h[a], |h|, ns);
      PutKeeps(h[a].members, key, v, |h|, ns, all);
      WriteKeeps(h, a, HashObj(WithEntry(h[a].members, key, v)), ns, all);
    }
  }

  // ----- symbols -----

  lemma {:induction false} ScopeIsThere(h: Heap, scopes: seq<nat>, sym: Value)
    ensures FindScope(h, scopes, sym).Some? ==> FindScope(h, scopes, sym).value in scopes
  {
    if scopes != [] && HashGet(h, scopes[0], sym).None? {
      ScopeIsThere(h, scopes[1..], sym);
    }
  }

  /** Among namespaces the first entry by text is an entry under the symbol. */
  lemma {:induction false} ObjectIsText(h: Heap, scopes: seq<nat>, x: string, ns: set<nat>, all: set<string>)
    requires Good(h, ns, all) && x in all && forall a :: a in scopes ==> a in ns
    ensures FindObject(h, scopes, Text(x)) == FindScope(h, scopes, Text(x))
  {
    if scopes != [] {
      assert scopes[0] in ns;
      ObjectIsText(h, scopes[1..], x, ns, all);
    }
  }

  lemma LookupSame(host: Host, h: Heap, env: Env, x: string, lits: set<string>, ns: set<nat>, all: set<string>)
    requires Good(h, ns, all) && EnvOk(env, lits, ns) && x in all && x !in lits
    ensures var r := GetLocal(host, h, env, Name(env.names, x));
      r == GetLocal(host.(byText := true), h, env, Name(env.names, x)) && (r.Ok? ==> Safe(r.value, |h|, ns))
  {
    hide Space;
    var scopes := [env.locals] + env.scopes;
    assert Name(env.names, x) == Text(x);
    ObjectIsText(h, scopes, x, ns, all);
    ScopeIsThere(h, scopes, Text(x));
    forall a | 0 <= a < |h|
      ensures ObjOk(h[a], |h|, ns)
    {
    }
  }

  lemma AssignKeeps(h: Heap, env: Env, x: string, v: Value, lits: set<string>, ns: set<nat>, all: set<string>)
    requires Good(h, ns, all) && EnvOk(env, lits, ns) && x !in lits && Safe(v, |h|, ns)
    ensures Good(SetSymbol(h, env, Name(env.names, x), v), ns, all)
    ensures |SetSymbol(h, env, Name(env.names, x), v)| == |h|
    ensures Good(HashSet(h, env.locals, Name(env.names, x), v), ns, all)
    ensures |HashSet(h, env.locals, Name(env.names, x), v)| == |h|
  {
    hide Good, HashSet;
    var sym := Name(env.names, x);
    var found := FindScope(h, [env.locals] + env.scopes, sym);
    HashSetKeeps(h, env.locals, sym, v, ns, all);
    if found.Some? {
      HashSetKeeps(h, found.value, sym, v, ns, all);
    }
  }

  // ----- members and containers -----

  lemma MemberSafe(h: Heap, obj: Value, field: Value, count: nat, ns: set<nat>, all: set<string>)
    requires Good(h, ns, all)
    ensures FindMember(h, obj, field, count).Found? ==> Safe(FindMember(h, obj, field, count).v, |h|, ns)
    decreases count, 0, 0
  {
    hide Space;
    if count > 0 && IsHash(h, obj) {
      assert ObjOk(h[obj.addr], |h|, ns);
      var parents := HashGet(h, obj.addr, Text("parents"));
      if parents.Some? && IsVec(h, parents.value) {
        ParentsSafe(h, h[parents.value.addr].elems, field, count - 1, ns, all);
      }
    }
  }

  lemma ParentsSafe(h: Heap, parents: seq<Value>, field: Value, count: nat, ns: set<nat>, all: set<string>)
    requires Good(h, ns, all)
    ensures FindInParents(h, parents, field, count).Found? ==> Safe(FindInParents(h, parents, field, count).v, |h|, ns)
    decreases count, 1, |parents|
  {
    hide Good;
    if parents != [] {
      MemberSafe(h, parents[0], field, count, ns, all);
      ParentsSafe(h, parents[1..], field, count, ns, all);
    }
  }

  lemma GetMemberSafe(h: Heap, obj: Value, field: string, ns: set<nat>, all: set<string>)
    requires Good(h, ns, all)
    ensures GetMember(h, obj, field).Ok? ==> Safe(GetMember(h, obj, field).value, |h|, ns)
  {
    hide Good, FindMember;
    MemberSafe(h, obj, Text(field), 64, ns, all);
  }

  lemma ContainerSafe(host: Host, h: Heap, box: Value, key: Value, ns: set<nat>, all: set<string>)
    requires Good(h, ns, all)
    ensures var r := ContainerGet(host, h, box, key);
      r == ContainerGet(host.(byText := true), h, box, key) && (r.Ok? ==> Safe(r.value, |h|, ns))
  {
    hide Space, Truncate;
    if IsHash(h, box) || IsVec(h, box) {
      assert ObjOk(h[box.addr], |h|, ns);
    }
  }

  lemma IndexSame(host: Host, size: nat, key: Value)
    ensures CheckIndex(host, size, key) == CheckIndex(host.(byText := true), size, key)
  {
  }

  lemma ContainerKeeps(host: Host, h: Heap, box: Value, key: Value, v: Value, ns: set<nat>, all: set<string>)
    requires Good(h, ns, all) && Safe(box, |h|, ns) && Safe(v, |h|, ns)
    ensures var r := ContainerSet(host, h, box, key, v);
      && r == ContainerSet(host.(byText := true), h, box, key, v)
      && (r.Ok? ==> Good(r.value, ns, all) && |r.value| == |h|)
  {
    hide Good, HashSet, CheckIndex;
    if IsVec(h, box) { IndexSame(host, |h[box.addr].elems|, key); }
    if IsHash(h, box) {
      HashSetKeeps(h, box.addr, key, v, ns, all);
    } else if IsVec(h, box) && CheckIndex(host, |h[box.addr].elems|, key).Ok? {
      ElementKeeps(h, box.addr, CheckIndex(host, |h[box.addr].elems|, key).value, v, ns, all);
    }
  }

  lemma ElementKeeps(h: Heap, a: nat, i: nat, v: Value, ns: set<nat>, all: set<string>)
    requires Good(h, ns, all) && a < |h| && h[a].VecObj? && i < |h[a].elems| && Safe(v, |h|, ns)
    ensures Good(h[a := VecObj(h[a].elems[i := v])], ns, all)
  {
    hide Space, Safe;
    assert ObjOk(h[a], |h|, ns);
    WriteKeeps(h, a, VecObj(h[a].elems[i := v]), ns, all);
  }

  lemma AppendKeeps(h: Heap, v: Value, x: Value, ns: set<nat>, all: set<string>)
    requires Good(h, ns, all) && Safe(x, |h|, ns)
    ensures Good(VecAppend(h, v, x), ns, all) && |VecAppend(h, v, x)| == |h|
  {
    hide Space, Safe;
    if IsVec(h, v) {
      assert ObjOk(h[v.addr], |h|, ns);
      WriteKeeps(h, v.addr, VecObj(h[v.addr].elems + [x]), ns, all);
    }
  }

  lemma JoinedSafe(a: Obj, b: Obj, n: nat, ns: set<nat>)
    requires a.VecObj? && b.VecObj? && ObjOk(a, n, ns) && ObjOk(b, n, ns)
    ensures ObjOk(VecObj(a.elems + b.elems), n, ns)
  {
  }

  lemma ConcatKeeps(host: Host, h: Heap, l: Value, r: Value, ns: set<nat>, all: set<string>)
    requires Good(h, ns, all)
    ensures var c := Concat(host, h, l, r);
      && c == Concat(host.(byText := true), h, l, r)
      && (c.Ok? ==> Good(c.value.1, ns, all) && Later(h, ns, c.value.1, ns) && Safe(c.value.0, |c.value.1|, ns))
  {
    hide Space, ObjOk, SafeAll;
    if IsVec(h, l) && IsVec(h, r) {
      JoinedSafe(h[l.addr], h[r.addr], |h|, ns);
      var _ := AllocKeeps(h, VecObj(h[l.addr].elems + h[r.addr].elems), ns, all, false);
    }
  }

  lemma NumifySame(host: Host, v: Value)
    ensures Numify(host, v) == Numify(host.(byText := true), v)
  {
  }

  lemma EqualSame(host: Host, l: Value, r: Value)
    ensures Equal(host, l, r) == Equal(host.(byText := true), l, r)
  {
  }

  lemma ArithSame(host: Host, op: BinOp, h: Heap, l: Value, r: Value)
    requires !op.Cat? && !op.Extract? && !op.Append?
    ensures var c := ApplyBinary(host, op, h, l, r);
      c == ApplyBinary(host.(byText := true), op, h, l, r) && (c.Ok? ==> c.value.1 == h && c.value.0.Num?)
  {
    hide Numify, Equal;
    NumifySame(host, l);
    NumifySame(host, r);
    EqualSame(host, l, r);
  }

  lemma BinaryKeeps(host: Host, op: BinOp, h: Heap, l: Value, r: Value, ns: set<nat>, all: set<string>)
    requires Good(h, ns, all) && Safe(l, |h|, ns) && Safe(r, |h|, ns)
    ensures var c := ApplyBinary(host, op, h, l, r);
      && c == ApplyBinary(host.(byText := true), op, h, l, r)
      && (c.Ok? ==> Good(c.value.1, ns, all) && Later(h, ns, c.value.1, ns) && Safe(c.value.0, |c.value.1|, ns))
  {
    hide Good, Concat, ContainerGet, VecAppend;
    match op
    case Cat => ConcatKeeps(host, h, l, r, ns, all);
    case Extract => ContainerSafe(host, h, l, r, ns, all);
    case Append => AppendKeeps(h, l, r, ns, all);
    case _ => ArithSame(host, op, h, l, r);
  }

  lemma UnarySame(host: Host, op: UnOp, v: Value)
    ensures ApplyUnary(host, op, v) == ApplyUnary(host.(byText := true), op, v)
    ensures Boolify(host, v) == Boolify(host.(byText := true), v)
    ensures ApplyUnary(host, op, v).Ok? ==> ApplyUnary(host, op, v).value.Num?
  {
  }

  lemma ItemSafe(h: Heap, v: Value, i: nat, useIndex: bool, ns: set<nat>, all: set<string>)
    requires Good(h, ns, all)
    ensures EachItem(h, v, i, useIndex).Ok? ==> Safe(EachItem(h, v, i, useIndex).value, |h|, ns)
  {
    hide Space;
    if IsVec(h, v) {
      assert ObjOk(h[v.addr], |h|, ns);
    }
  }

  lemma {:induction false} ReverseHas(vs: seq<Value>)
    ensures forall v :: v in Reverse(vs) ==> v in vs
  {
    if vs != [] {
      ReverseHas(vs[1..]);
    }
  }

  lemma UnpackSafe(h: Heap, v: Value, count: nat, ns: set<nat>, all: set<string>)
    requires Good(h, ns, all)
    ensures UnpackVec(h, v, count).Ok? ==> SafeAll(UnpackVec(h, v, count).value, |h|, ns)
  {
    hide Space;
    if IsVec(h, v) && |h[v.addr].elems| >= count {
      assert ObjOk(h[v.addr], |h|, ns);
      ReverseHas(h[v.addr].elems[..count]);
    }
  }

  ghost predicate Here(w: World, env: Env, h: Heap, lits: set<string>, ns: set<nat>) {
    Apart(w) && EnvOk(env, lits, ns) && Good(h, ns, w.all)
  }

  lemma HereLater(w: World, env: Env, h: Heap, lits: set<string>, ns: set<nat>, h1: Heap, ns1: set<nat>)
    requires Here(w, env, h, lits, ns) && Later(h, ns, h1, ns1) && Good(h1, ns1, w.all)
    ensures Here(w, env, h1, lits, ns1)
  {
    hide Good, Apart, Clear;
  }

  // ----- calls -----

  ghost predicate EntryOk(w: World, en: Entry, ns: set<nat>) {
    en.code < |w.lits| && Here(w, en.env, en.heap, w.lits[en.code], ns)
  }

  lemma CalleeOk(w: World, h: Heap, f: Value, ns: set<nat>)
    requires Good(h, ns, w.all) && Callee(w.p.params, h, f).Ok?
    ensures forall a :: a in Callee(w.p.params, h, f).value.1 ==> a in ns
  {
    hide Space, SafeAll, SafeIn;
    assert ObjOk(h[f.addr], |h|, ns);
  }

  /** The members of a namespace in the making. */
  ghost predicate Fits(m: Members, n: nat, ns: set<nat>, all: set<string>) { SafeIn(m, n, ns) && Space(m, all) }

  lemma JoinFits(a: Members, b: Members, n: nat, ns: set<nat>, all: set<string>)
    requires Fits(a, n, ns, all) && Fits(b, n, ns, all)
    ensures Fits(a + b, n, ns, all)
  {
  }

  lemma {:induction false} NamesFit(names: string -> Ident, args: seq<string>, vals: seq<Value>, lits: set<string>,
      n: nat, ns: set<nat>, all: set<string>)
    requires |args| <= |vals| && Clear(names, lits) && (forall x :: x in args ==> x !in lits) && SafeAll(vals, n, ns)
    ensures Fits(BindNames(names, args, vals), n, ns, all)
  {
    if args != [] {
      NamesFit(names, args[1..], vals[1..], lits, n, ns, all);
      assert args[0] in args && vals[0] in vals;
      JoinFits(map[Text(args[0]) := Cell(Name(names, args[0]), vals[0])], BindNames(names, args[1..], vals[1..]), n, ns,
               all);
    }
  }

  lemma {:induction false} DefaultsFit(names: string -> Ident, opts: seq<(string, Value)>, vals: seq<Value>,
      lits: set<string>, n: nat, ns: set<nat>, all: set<string>)
    requires Clear(names, lits) && SafeAll(vals, n, ns)
    requires forall i :: 0 <= i < |opts| ==> opts[i].0 !in lits && (opts[i].1.Nil? || IsScalar(opts[i].1))
    ensures Fits(BindDefaults(names, opts, vals), n, ns, all)
  {
    if opts != [] {
      var rest := if vals == [] then [] else vals[1..];
      DefaultsFit(names, opts[1..], rest, lits, n, ns, all);
      var (x, d) := opts[0];
      var v := if vals == [] then Constant(names, d) else vals[0];
      JoinFits(map[Text(x) := Cell(Name(names, x), v)], BindDefaults(names, opts[1..], rest), n, ns, all);
    }
  }

  lemma EntryFits(m: Members, key: Value, v: Value, n: nat, ns: set<nat>, all: set<string>)
    requires Fits(m, n, ns, all) && Safe(v, n, ns) && KeyFits(key, all)
    ensures Fits(WithEntry(m, key, v), n, ns, all)
  {
    PutKeeps(m, key, v, n, ns, all);
  }

  lemma MeFits(m: Members, obj: Option<Value>, n: nat, ns: set<nat>, all: set<string>)
    requires Fits(m, n, ns, all) && (obj.Some? ==> Safe(obj.value, n, ns))
    ensures Fits(WithMe(m, obj), n, ns, all)
  {
    hide Fits, WithEntry;
    if obj.Some? { EntryFits(m, Text("me"), obj.value, n, ns, all); }
  }

  /** A positional call makes a new namespace, and perhaps the vector of what remains. */
  lemma EnterCallKeeps(w: World, h: Heap, f: Value, obj: Option<Value>, args: seq<Value>, ns: set<nat>)
    returns (to: set<nat>)
    requires Apart(w) && Good(h, ns, w.all) && SafeAll(args, |h|, ns) && (obj.Some? ==> Safe(obj.value, |h|, ns))
    requires EnterCall(w.p.params, h, f, obj, args).Ok?
    ensures var en := EnterCall(w.p.params, h, f, obj, args).value;
      EntryOk(w, en, to) && Later(h, ns, en.heap, to)
  {
    hide Good, Fits, WithMe, BindNames, BindDefaults, WithEntry;
    CalleeOk(w, h, f, ns);
    var code := Callee(w.p.params, h, f).value.0;
    var p, lits := w.p.params[code], w.lits[code];
    var rest, extra := Drop(args, |p.args|), Drop(args, |p.args| + |p.opts|);
    assert Fits(map[], |h|, ns, w.all) by { NothingFits(|h|, ns, w.all); }
    MeFits(map[], obj, |h|, ns, w.all);
    NamesFit(p.names, p.args, args, lits, |h|, ns, w.all);
    DefaultsFit(p.names, p.opts, rest, lits, |h|, ns, w.all);
    var me, named, given := WithMe(map[], obj), BindNames(p.names, p.args, args), BindDefaults(p.names, p.opts, rest);
    JoinFits(me, named, |h|, ns, w.all);
    JoinFits(me + named, given, |h|, ns, w.all);
    var full := me + named + given;
    if p.needVector || extra != [] {
      EntryFits(full, Name(p.names, p.rest), Vec(|h| + 1), |h|, ns, w.all);
      full := WithEntry(full, Name(p.names, p.rest), Vec(|h| + 1));
      to := NewSpace(h, full, ns, w.all);
      SafeAllLater(extra, h, ns, h + [HashObj(full)], to);
      var _ := AllocKeeps(h + [HashObj(full)], VecObj(extra), to, w.all, false);
      assert h + [HashObj(full)] + [VecObj(extra)] == h + [HashObj(full), VecObj(extra)];
    } else {
      to := NewSpace(h, full, ns, w.all);
    }
  }

  lemma NothingFits(n: nat, ns: set<nat>, all: set<string>)
    ensures Fits(map[], n, ns, all)
  {
  }

  lemma NewSpace(h: Heap, m: Members, ns: set<nat>, all: set<string>) returns (to: set<nat>)
    requires Good(h, ns, all) && Fits(m, |h|, ns, all)
    ensures to == ns + {|h|} && Good(h + [HashObj(m)], to, all) && Later(h, ns, h + [HashObj(m)], to)
  {
    hide Good, SafeIn, Space;
    to := AllocKeeps(h, HashObj(m), ns, all, true);
  }

  /** In a hash made for named arguments the parameters are found by object if they are by text. */
  lemma HasAllSame(host: Host, names: string -> Ident, m: Members, args: seq<string>, lits: set<string>,
      all: set<string>)
    requires Space(m, all) && Clear(names, lits) && forall x :: x in args ==> x in all && x !in lits
    ensures HasAll(host, names, m, args) == HasAll(host.(byText := true), names, m, args)
  {
    forall i | 0 <= i < |args|
      ensures Text(args[i]) in m <==> HoldsObject(m, Name(names, args[i]))
    {
      assert args[i] in args;
    }
  }

  lemma EnterNamedSame(w: World, h: Heap, f: Value, obj: Option<Value>, named: Value, ns: set<nat>)
    requires Apart(w) && Good(h, ns, w.all) && named.Hash? && named.addr in ns
    requires obj.Some? ==> Safe(obj.value, |h|, ns)
    ensures var r := EnterNamed(w.p.host, w.p.params, h, f, obj, named);
      && r == EnterNamed(w.p.host.(byText := true), w.p.params, h, f, obj, named)
      && (r.Ok? ==> EntryOk(w, r.value, ns) && Later(h, ns, r.value.heap, ns))
  {
    hide Fits, WithMe, BindDefaults, WithEntry, HasAll, ObjOk, Space, SafeIn;
    if Callee(w.p.params, h, f).Ok? {
      CalleeOk(w, h, f, ns);
      var code := Callee(w.p.params, h, f).value.0;
      var p, lits, a := w.p.params[code], w.lits[code], named.addr;
      var given := WithMe(h[a].members, obj);
      MembersFit(h, a, ns, w.all);
      MeFits(h[a].members, obj, |h|, ns, w.all);
      SpaceOf(given, |h|, ns, w.all);
      HasAllSame(w.p.host, p.names, given, p.args, lits, w.all);
      DefaultsFit(p.names, p.opts, [], lits, |h|, ns, w.all);
      var full := BindDefaults(p.names, p.opts, []) + given;
      JoinFits(BindDefaults(p.names, p.opts, []), given, |h|, ns, w.all);
      if p.needVector && Text(p.rest) !in full {
        EntryFits(full, Name(p.names, p.rest), Vec(|h|), |h|, ns, w.all);
        full := WithEntry(full, Name(p.names, p.rest), Vec(|h|));
      }
      SpaceKeeps(h, a, full, ns, w.all);
    }
  }

  lemma SpaceOf(m: Members, n: nat, ns: set<nat>, all: set<string>)
    requires Fits(m, n, ns, all)
    ensures Space(m, all)
  {
  }

  lemma MembersFit(h: Heap, a: nat, ns: set<nat>, all: set<string>)
    requires Good(h, ns, all) && a in ns
    ensures a < |h| && h[a].HashObj? && Fits(h[a].members, |h|, ns, all)
  {
    hide Space, SafeIn;
    assert ObjOk(h[a], |h|, ns);
  }

  /** The members of a namespace replaced, and perhaps an empty vector made. */
  lemma SpaceKeeps(h: Heap, a: nat, m: Members, ns: set<nat>, all: set<string>)
    requires Good(h, ns, all) && a in ns && a < |h| && Fits(m, |h|, ns, all)
    ensures Good(h[a := HashObj(m)], ns, all) && Good(h[a := HashObj(m)] + [VecObj([])], ns, all)
  {
    hide Good, Space, SafeIn;
    WriteKeeps(h, a, HashObj(m), ns, all);
    var _ := AllocKeeps(h[a := HashObj(m)], VecObj([]), ns, all, false);
  }
}
