/** The expressions the code generator accepts: the precedence parser's token
    tree with each node kind as a constructor. */
module Syntax {
  import opened Basics
  import opened Values

  datatype Expr =
    | NilLit
    | NumLit(n: real)
    | StrLit(s: string)
    | SymLit(s: string)      // a symbol as a key
    | Lambda(index: nat)
    | Sym(name: string)
    | Unary(uop: UnOp, arg: Expr)
    | Binary(op: BinOp, left: Expr, right: Expr)
    | NewVec
    | NewHash
    | HashAppend(hash: Expr, key: Expr, val: Expr)
    | Member(obj: Expr, field: string)
    | And(left: Expr, right: Expr)
    | Or(left: Expr, right: Expr)
    | Cond(test: Expr, thn: Expr, els: Expr)
    | Semi(first: Expr, rest: Expr)
    | Assign(lv: LValue, rhs: Expr)
    | OpAssign(op: BinOp, lv: LValue, rhs: Expr)
    | MultiAssign(lvs: LValues, rvs: Exprs)
    | Unpack(lvs: LValues, rhs: Expr)
    | Loop(tag: Option<string>, test: Expr, update: Option<Expr>, body: Expr)
    | ForEach(tag: Option<string>, useIndex: bool, lv: LValue, vec: Expr, body: Expr)
    | Break(target: Option<string>)
    | Continue(target: Option<string>)
    | Return(arg: Expr)
    | Call(f: Expr, args: Exprs)
    | MethodCall(obj: Expr, field: string, args: Exprs)
    | NamedCall(f: Expr, named: Expr)
    | NamedMethodCall(obj: Expr, field: string, named: Expr)

  datatype LValue =
    | LSym(name: string)
    | LVar(name: string)
    | LMember(obj: Expr, field: string)
    | LIndex(box: Expr, key: Expr)

  datatype Exprs = NoExprs | More(head: Expr, tail: Exprs)

  datatype LValues = OneLV(lv: LValue) | MoreLV(lv: LValue, rest: LValues)

  predicate IsLeaf(e: Expr) {
    e.NilLit? || e.NumLit? || e.StrLit? || e.SymLit? || e.Lambda? || e.Sym? || e.NewVec? || e.NewHash?
  }

  function Count(es: Exprs): nat {
    match es case NoExprs => 0 case More(_, t) => 1 + Count(t)
  }

  function CountLV(lvs: LValues): nat {
    match lvs case OneLV(_) => 1 case MoreLV(_, t) => 1 + CountLV(t)
  }

  /** One enclosing loop, as break and continue see it: its label, and whether
      its exit and continue addresses are known yet. They are while the body and
      the update are generated, but not while the header is. */
  datatype Scope = Scope(tag: Option<string>, open: bool)

  type Ctx = seq<Scope>

  /** The innermost loop with the label. */
  function FindLabel(ctx: Ctx, name: string): (r: Option<nat>)
    ensures r.Some? ==> r.value < |ctx|
  {
    if ctx == [] then None
    else if ctx[|ctx| - 1].tag == Some(name) then Some(|ctx| - 1)
    else FindLabel(ctx[..|ctx| - 1], name)
  }

  /** The loop a break or continue refers to, counted from the outermost. */
  function Resolve(ctx: Ctx, target: Option<string>): (r: Option<nat>)
    ensures r.Some? ==> r.value < |ctx|
  {
    match target
    case Some(name) => FindLabel(ctx, name)
    case None => if ctx == [] then None else Some(|ctx| - 1)
  }

  /** The loop a break or continue means: the innermost one, or the innermost one of its label. */
  ghost predicate Means(ctx: Ctx, target: Option<string>, j: nat) {
    && j < |ctx|
    && match target
       case None => j == |ctx| - 1
       case Some(name) => ctx[j].tag == Some(name) && forall k :: j < k < |ctx| ==> ctx[k].tag != Some(name)
  }

  lemma {:induction false} FindLabelMeans(ctx: Ctx, name: string, j: nat)
    ensures FindLabel(ctx, name) == Some(j) <==> Means(ctx, Some(name), j)
  {
    if ctx != [] && ctx[|ctx| - 1].tag != Some(name) {
      var rest := ctx[..|ctx| - 1];
      FindLabelMeans(rest, name, j);
      assert Means(rest, Some(name), j) ==> forall k :: j < k < |rest| ==> ctx[k] == rest[k];
      assert Means(ctx, Some(name), j) ==> j < |rest| && forall k :: j < k < |rest| ==> ctx[k] == rest[k];
    }
  }

  lemma ResolveMeans(ctx: Ctx, target: Option<string>, j: nat)
    ensures Resolve(ctx, target) == Some(j) <==> Means(ctx, target, j)
  {
    if target.Some? {
      FindLabelMeans(ctx, target.value, j);
    }
  }

  /** No loop is meant outside every loop, or by a label that none has. */
  lemma {:induction false} NoneMeant(ctx: Ctx, target: Option<string>)
    ensures Resolve(ctx, target).None?
            <==> if target.None? then ctx == [] else forall k :: 0 <= k < |ctx| ==> ctx[k].tag != target
  {
    if target.Some? && ctx != [] {
      NoneMeant(ctx[..|ctx| - 1], target);
      if ctx[|ctx| - 1].tag != target {
        assert forall k :: 0 <= k < |ctx| - 1 ==> ctx[..|ctx| - 1][k] == ctx[k];
      }
    }
  }

  predicate Jumps(ctx: Ctx, target: Option<string>) {
    var r := Resolve(ctx, target);
    r.Some? && ctx[r.value].open
  }

  /** Every break and continue names a loop whose body or update encloses it, and
      parallel assignments have as many values as targets. */
  predicate WellFormed(e: Expr, ctx: Ctx) {
    match e
    case Unary(_, a) => WellFormed(a, ctx)
    case Binary(_, l, r) => WellFormed(l, ctx) && WellFormed(r, ctx)
    case HashAppend(h, k, v) => WellFormed(h, ctx) && WellFormed(k, ctx) && WellFormed(v, ctx)
    case Member(o, _) => WellFormed(o, ctx)
    case And(l, r) => WellFormed(l, ctx) && WellFormed(r, ctx)
    case Or(l, r) => WellFormed(l, ctx) && WellFormed(r, ctx)
    case Cond(t, a, b) => WellFormed(t, ctx) && WellFormed(a, ctx) && WellFormed(b, ctx)
    case Semi(a, b) => WellFormed(a, ctx) && WellFormed(b, ctx)
    case Assign(lv, r) => WellFormedLV(lv, ctx) && WellFormed(r, ctx)
    case OpAssign(_, lv, r) => WellFormedLV(lv, ctx) && WellFormed(r, ctx)
    case MultiAssign(lvs, rvs) =>
      WellFormedLVs(lvs, ctx) && WellFormedList(rvs, ctx) && CountLV(lvs) == Count(rvs)
    case Unpack(lvs, r) => WellFormedLVs(lvs, ctx) && WellFormed(r, ctx)
    case Loop(tag, t, u, b) =>
      && WellFormed(t, ctx + [Scope(tag, false)])
      && (u.Some? ==> WellFormed(u.value, ctx + [Scope(tag, true)]))
      && WellFormed(b, ctx + [Scope(tag, true)])
    case ForEach(tag, _, lv, v, b) =>
      && WellFormed(v, ctx)
      && WellFormedLV(lv, ctx + [Scope(tag, false)])
      && WellFormed(b, ctx + [Scope(tag, true)])
    case Break(t) => Jumps(ctx, t)
    case Continue(t) => Jumps(ctx, t)
    case Return(a) => WellFormed(a, ctx)
    case Call(f, args) => WellFormed(f, ctx) && WellFormedList(args, ctx)
    case MethodCall(o, _, args) => WellFormed(o, ctx) && WellFormedList(args, ctx)
    case NamedCall(f, h) => WellFormed(f, ctx) && WellFormed(h, ctx)
    case NamedMethodCall(o, _, h) => WellFormed(o, ctx) && WellFormed(h, ctx)
    case _ => true
  }

  predicate WellFormedLV(lv: LValue, ctx: Ctx) {
    match lv
    case LMember(o, _) => WellFormed(o, ctx)
    case LIndex(b, k) => WellFormed(b, ctx) && WellFormed(k, ctx)
    case _ => true
  }

  predicate WellFormedList(es: Exprs, ctx: Ctx) {
    match es
    case NoExprs => true
    case More(e, t) => WellFormed(e, ctx) && WellFormedList(t, ctx)
  }

  predicate WellFormedLVs(lvs: LValues, ctx: Ctx) {
    match lvs
    case OneLV(lv) => WellFormedLV(lv, ctx)
    case MoreLV(lv, t) => WellFormedLV(lv, ctx) && WellFormedLVs(t, ctx)
  }

  /** Every string literal is one of these. */
  predicate LiteralsIn(e: Expr, lits: set<string>) {
    match e
    case StrLit(s) => s in lits
    case Unary(_, a) => LiteralsIn(a, lits)
    case Binary(_, l, r) => LiteralsIn(l, lits) && LiteralsIn(r, lits)
    case HashAppend(h, k, v) => LiteralsIn(h, lits) && LiteralsIn(k, lits) && LiteralsIn(v, lits)
    case Member(o, _) => LiteralsIn(o, lits)
    case And(l, r) => LiteralsIn(l, lits) && LiteralsIn(r, lits)
    case Or(l, r) => LiteralsIn(l, lits) && LiteralsIn(r, lits)
    case Cond(t, a, b) => LiteralsIn(t, lits) && LiteralsIn(a, lits) && LiteralsIn(b, lits)
    case Semi(a, b) => LiteralsIn(a, lits) && LiteralsIn(b, lits)
    case Assign(lv, r) => LiteralsInLV(lv, lits) && LiteralsIn(r, lits)
    case OpAssign(_, lv, r) => LiteralsInLV(lv, lits) && LiteralsIn(r, lits)
    case MultiAssign(lvs, rvs) => LiteralsInLVs(lvs, lits) && LiteralsInList(rvs, lits)
    case Unpack(lvs, r) => LiteralsInLVs(lvs, lits) && LiteralsIn(r, lits)
    case Loop(_, t, u, b) => LiteralsIn(t, lits) && LiteralsIn(b, lits) && (u.Some? ==> LiteralsIn(u.value, lits))
    case ForEach(_, _, lv, v, b) => LiteralsIn(v, lits) && LiteralsInLV(lv, lits) && LiteralsIn(b, lits)
    case Return(a) => LiteralsIn(a, lits)
    case Call(f, args) => LiteralsIn(f, lits) && LiteralsInList(args, lits)
    case MethodCall(o, _, args) => LiteralsIn(o, lits) && LiteralsInList(args, lits)
    case NamedCall(f, h) => LiteralsIn(f, lits) && LiteralsIn(h, lits)
    case NamedMethodCall(o, _, h) => LiteralsIn(o, lits) && LiteralsIn(h, lits)
    case _ => true
  }

  predicate LiteralsInLV(lv: LValue, lits: set<string>) {
    match lv
    case LMember(o, _) => LiteralsIn(o, lits)
    case LIndex(b, k) => LiteralsIn(b, lits) && LiteralsIn(k, lits)
    case _ => true
  }

  predicate LiteralsInList(es: Exprs, lits: set<string>) {
    match es
    case NoExprs => true
    case More(e, t) => LiteralsIn(e, lits) && LiteralsInList(t, lits)
  }

  predicate LiteralsInLVs(lvs: LValues, lits: set<string>) {
    match lvs
    case OneLV(lv) => LiteralsInLV(lv, lits)
    case MoreLV(lv, t) => LiteralsInLV(lv, lits) && LiteralsInLVs(t, lits)
  }
}
