/** Nasal values, the heap of containers and closures, and the primitive
    operations that both the source semantics and the virtual machine apply to
    them: conversions, operators, container access, symbol lookup along the
    closure chain, and argument binding. */
module Values {
  import opened Basics

  /** A value or a runtime error message (the target of a longjmp). */
  datatype Res<+T> = Ok(value: T) | Err(error: string) {
    predicate IsFailure() { Err? }
    function PropagateFailure<U>(): Res<U>
      requires Err?
    {
      Err(error)
    }
    function Extract(): T
      requires Ok?
    {
      value
    }
  }

  /** Which string object it is: the symbol of its text, of which there is one; the
      literal that constant `place` of a function holds; or any other string, made at run time. */
  datatype Ident = Interned | Pooled(code: nat, place: nat) | Runtime

  /** `End` is the token that marks the end of an enumeration or a broken loop.
      `Code` is a code object in a constant pool, named by its place in the
      program's function table. Containers and closures live on the heap. */
  datatype Value =
    | Nil
    | End
    | Num(n: real)
    | Str(s: string, id: Ident)
    | Vec(addr: nat)
    | Hash(addr: nat)
    | Func(addr: nat)
    | Code(index: nat)

  /** An entry of a hash: the object it was entered under, and its value. */
  datatype Cell = Cell(key: Value, val: Value)

  /** What the entries of a hash are found by: the text of a string, whichever object it is. */
  type Members = map<Value, Cell>

  /** A closure holds its code and the namespaces of its enclosing calls,
      innermost first. */
  datatype Obj =
    | VecObj(elems: seq<Value>)
    | HashObj(members: Members)
    | FuncObj(code: nat, scopes: seq<nat>)

  type Heap = seq<Obj>

  /** What a running call can name: its own locals, then the closure chain; and which
      object its constants have for a text. */
  datatype Env = Env(locals: nat, scopes: seq<nat>, names: string -> Ident)

  /** The string object that a text denotes in a function. */
  function Name(names: string -> Ident, x: string): Value { Str(x, names(x)) }

  /** The conversions between strings and numbers, division by zero, and whether symbols
      are found by text alone, which the interpreter does not do but the language means. */
  datatype Host = Host(toNum: string -> Option<real>, fromNum: real -> string, divZero: real -> real, byText: bool)

  datatype BinOp = Mul | Plus | Minus | Div | Cat | Lt | Lte | Gt | Gte | Eq | Neq | Extract | Append

  /** A minus sign right after another operator is `Neg`, any other one in front of
      an operand is `Negate`; they differ in the code for a literal only. */
  datatype UnOp = Not | Negate | Neg

  /** Parameter list of a function: names, optional names with their defaults, and the name
      of the vector of remaining arguments; and which object its constants have for a text. */
  datatype Params = Params(args: seq<string>, opts: seq<(string, Value)>, rest: string, needVector: bool,
                           names: string -> Ident)

  // ----- heap access -----

  predicate IsVec(h: Heap, v: Value) { v.Vec? && v.addr < |h| && h[v.addr].VecObj? }

  predicate IsHash(h: Heap, v: Value) { v.Hash? && v.addr < |h| && h[v.addr].HashObj? }

  predicate IsScalar(v: Value) { v.Num? || v.Str? }

  function Alloc(h: Heap, o: Obj): Heap { h + [o] }

  function Text(x: string): Value { Str(x, Interned) }

  /** Keys of one text are one key. */
  function Key(v: Value): Value { if v.Str? then Text(v.s) else v }

  /** An entry keeps the object it was first entered under. */
  function WithEntry(m: Members, key: Value, v: Value): Members {
    var k := Key(key);
    m[k := Cell(if k in m then m[k].key else key, v)]
  }

  function HashGet(h: Heap, a: nat, key: Value): Option<Value> {
    if a < |h| && h[a].HashObj? && Key(key) in h[a].members then Some(h[a].members[Key(key)].val) else None
  }

  /** The entry was made under this very object. */
  predicate HoldsObject(m: Members, sym: Value) { Key(sym) in m && m[Key(sym)].key == sym }

  function HashSet(h: Heap, a: nat, key: Value, v: Value): Heap {
    if a < |h| && h[a].HashObj? then h[a := HashObj(WithEntry(h[a].members, key, v))] else h
  }

  function PutField(h: Heap, hash: Value, k: Value, v: Value): Heap {
    if hash.Hash? then HashSet(h, hash.addr, k, v) else h
  }

  // ----- conversions -----

  function Bool(b: bool): Value { Num(if b then 1.0 else 0.0) }

  function Boolify(host: Host, v: Value): Res<bool> {
    match v
    case Num(n) => Ok(n != 0.0)
    case Nil => Ok(false)
    case End => Ok(false)
    case Str(s, _) =>
      if s == "" then Ok(false)
      else (match host.toNum(s) case Some(d) => Ok(d != 0.0) case None => Ok(true))
    case _ => Err("non-scalar used in boolean context")
  }

  function Numify(host: Host, v: Value): Res<real> {
    match v
    case Num(n) => Ok(n)
    case Nil => Err("nil used in numeric context")
    case Str(s, _) =>
      (match host.toNum(s) case Some(d) => Ok(d) case None => Err("non-numeric string in numeric context"))
    case _ => Err("non-scalar in numeric context")
  }

  function Stringify(host: Host, v: Value): Res<string> {
    match v
    case Str(s, _) => Ok(s)
    case Num(n) => Ok(host.fromNum(n))
    case _ => Err("non-scalar in string context")
  }

  /** An index counted from the front, or from the back when negative. */
  function CheckIndex(host: Host, size: nat, idx: Value): (r: Res<nat>)
    ensures r.Ok? ==> r.value < size
  {
    var d :- Numify(host, idx);
    var i := Truncate(d);
    var j := if i < 0 then i + size else i;
    if j < 0 || j >= size then Err("index out of bounds") else Ok(j)
  }

  // ----- operators -----

  function NumericEqual(host: Host, a: Value, b: Value): bool {
    match (a, b)
    case (Num(x), Num(y)) => x == y
    case (Num(x), Str(t, _)) => host.toNum(t) == Some(x)
    case (Str(s, _), Num(y)) => host.toNum(s) == Some(y)
    case (Str(s, _), Str(t, _)) => host.toNum(s).Some? && host.toNum(s) == host.toNum(t)
    case _ => false
  }

  function Equal(host: Host, a: Value, b: Value): bool {
    Key(a) == Key(b) || NumericEqual(host, a, b)
  }

  function Arith(host: Host, op: BinOp, l: real, r: real): Value {
    match op
    case Plus => Num(l + r)
    case Minus => Num(l - r)
    case Mul => Num(l * r)
    case Div => Num(if r == 0.0 then host.divZero(l) else l / r)
    case Lt => Bool(l < r)
    case Lte => Bool(l <= r)
    case Gt => Bool(l > r)
    case _ => Bool(l >= r)
  }

  function Concat(host: Host, h: Heap, l: Value, r: Value): Res<(Value, Heap)> {
    if IsVec(h, l) && IsVec(h, r) then
      Ok((Vec(|h|), Alloc(h, VecObj(h[l.addr].elems + h[r.addr].elems))))
    else
      var a :- Stringify(host, l);
      var b :- Stringify(host, r);
      Ok((Str(a + b, Runtime), h))
  }

  function ContainerGet(host: Host, h: Heap, box: Value, key: Value): Res<Value> {
    if !IsScalar(key) then Err("container index not scalar")
    else if IsHash(h, box) then
      (match HashGet(h, box.addr, key) case Some(v) => Ok(v) case None => Ok(Nil))
    else if IsVec(h, box) then
      var i :- CheckIndex(host, |h[box.addr].elems|, key);
      Ok(h[box.addr].elems[i])
    else if box.Str? then
      var i :- CheckIndex(host, |box.s|, key);
      Ok(Num((box.s[i] as int) as real))
    else Err("extract from non-container")
  }

  function ContainerSet(host: Host, h: Heap, box: Value, key: Value, v: Value): Res<Heap> {
    if !IsScalar(key) then Err("container index not scalar")
    else if IsHash(h, box) then Ok(HashSet(h, box.addr, key, v))
    else if IsVec(h, box) then
      var i :- CheckIndex(host, |h[box.addr].elems|, key);
      Ok(h[box.addr := VecObj(h[box.addr].elems[i := v])])
    else if box.Str? then Err("cannot change immutable string")
    else Err("insert into non-container")
  }

  function VecAppend(h: Heap, v: Value, x: Value): Heap {
    if IsVec(h, v) then h[v.addr := VecObj(h[v.addr].elems + [x])] else h
  }

  function ApplyBinary(host: Host, op: BinOp, h: Heap, l: Value, r: Value): Res<(Value, Heap)> {
    match op
    case Eq => Ok((Bool(Equal(host, l, r)), h))
    case Neq => Ok((Bool(!Equal(host, l, r)), h))
    case Cat => Concat(host, h, l, r)
    case Extract => var v :- ContainerGet(host, h, l, r); Ok((v, h))
    case Append => Ok((l, VecAppend(h, l, r)))
    case _ =>
      var x :- Numify(host, l);
      var y :- Numify(host, r);
      Ok((Arith(host, op, x, y), h))
  }

  function ApplyUnary(host: Host, op: UnOp, v: Value): Res<Value> {
    match op
    case Not => var b :- Boolify(host, v); Ok(Bool(!b))
    case _ => var x :- Numify(host, v); Ok(Num(-x))
  }

  // ----- symbols and members -----

  function FindScope(h: Heap, scopes: seq<nat>, sym: Value): Option<nat> {
    if scopes == [] then None
    else if HashGet(h, scopes[0], sym).Some? then Some(scopes[0])
    else FindScope(h, scopes[1..], sym)
  }

  /** The innermost scope that has an entry under this very object. */
  function FindObject(h: Heap, scopes: seq<nat>, sym: Value): Option<nat> {
    if scopes == [] then None
    else if scopes[0] < |h| && h[scopes[0]].HashObj? && HoldsObject(h[scopes[0]].members, sym) then Some(scopes[0])
    else FindObject(h, scopes[1..], sym)
  }

  /** A first pass by object, then a second by text. */
  function FindSymbol(host: Host, h: Heap, scopes: seq<nat>, sym: Value): Option<nat> {
    var own := if host.byText then None else FindObject(h, scopes, sym);
    if own.Some? then own else FindScope(h, scopes, sym)
  }

  function GetLocal(host: Host, h: Heap, env: Env, sym: Value): Res<Value> {
    match FindSymbol(host, h, [env.locals] + env.scopes, sym)
    case Some(a) =>
      (match HashGet(h, a, sym) case Some(v) => Ok(v) case None => Err("undefined symbol"))
    case None => Err("undefined symbol")
  }

  /** Assigns in the innermost scope that already has the symbol, else locally. */
  function SetSymbol(h: Heap, env: Env, sym: Value, v: Value): Heap {
    match FindScope(h, [env.locals] + env.scopes, sym)
    case Some(a) => HashSet(h, a, sym, v)
    case None => HashSet(h, env.locals, sym, v)
  }

  datatype Lookup = Found(v: Value) | Missing | Bad(msg: string)

  function FindMember(h: Heap, obj: Value, field: Value, count: nat): Lookup
    decreases count, 0, 0
  {
    if count == 0 then Bad("too many parents")
    else if !IsHash(h, obj) then Bad("non-objects have no members")
    else match HashGet(h, obj.addr, field)
      case Some(v) => Found(v)
      case None =>
        match HashGet(h, obj.addr, Text("parents"))
        case None => Missing
        case Some(p) =>
          if !IsVec(h, p) then Bad("object \"parents\" field not vector")
          else FindInParents(h, h[p.addr].elems, field, count - 1)
  }

  function FindInParents(h: Heap, parents: seq<Value>, field: Value, count: nat): Lookup
    decreases count, 1, |parents|
  {
    if parents == [] then Missing
    else
      var r := FindMember(h, parents[0], field, count);
      if r.Missing? then FindInParents(h, parents[1..], field, count) else r
  }

  function GetMember(h: Heap, obj: Value, field: string): Res<Value> {
    match FindMember(h, obj, Text(field), 64)
    case Found(v) => Ok(v)
    case Missing => Err("No such member")
    case Bad(msg) => Err(msg)
  }

  function SetMember(h: Heap, obj: Value, field: Value, v: Value): Res<Heap> {
    if !IsHash(h, obj) then Err("non-objects have no members")
    else Ok(HashSet(h, obj.addr, field, v))
  }

  // ----- enumeration and unpacking -----

  /** The element an enumeration at index `i` yields, `End` past the last one. */
  function EachItem(h: Heap, v: Value, i: nat, useIndex: bool): Res<Value> {
    if !IsVec(h, v) then Err("foreach enumeration of non-vector")
    else if i >= |h[v.addr].elems| then Ok(End)
    else Ok(if useIndex then Num(i as real) else h[v.addr].elems[i])
  }

  function Reverse(vs: seq<Value>): (r: seq<Value>)
    ensures |r| == |vs|
  {
    if vs == [] then [] else Reverse(vs[1..]) + [vs[0]]
  }

  /** The first `count` elements, the first one last: it ends on top of the stack. */
  function UnpackVec(h: Heap, v: Value, count: nat): (r: Res<seq<Value>>)
    ensures r.Ok? ==> |r.value| == count
  {
    if !IsVec(h, v) || |h[v.addr].elems| < count then Err("short or invalid multi-assignment vector")
    else Ok(Reverse(h[v.addr].elems[..count]))
  }

  // ----- calls -----

  /** Where a call starts: the code to run, its environment, and the heap with
      the new namespace filled in. */
  datatype Entry = Entry(code: nat, env: Env, heap: Heap)

  /** Parameters are entered under the objects that the function's constants hold. */
  function BindNames(names: string -> Ident, args: seq<string>, vals: seq<Value>): Members
    requires |args| <= |vals|
  {
    if args == [] then map[]
    else map[Text(args[0]) := Cell(Name(names, args[0]), vals[0])] + BindNames(names, args[1..], vals[1..])
  }

  /** A default is a constant of the function. */
  function Constant(names: string -> Ident, v: Value): Value { if v.Str? then Name(names, v.s) else v }

  function BindDefaults(names: string -> Ident, opts: seq<(string, Value)>, vals: seq<Value>): Members {
    if opts == [] then map[]
    else
      var (x, d) := opts[0];
      map[Text(x) := Cell(Name(names, x), if vals == [] then Constant(names, d) else vals[0])]
      + BindDefaults(names, opts[1..], if vals == [] then [] else vals[1..])
  }

  function Drop(s: seq<Value>, n: nat): seq<Value> { if n <= |s| then s[n..] else [] }

  /** A method call enters its object as `me`. */
  function WithMe(m: Members, obj: Option<Value>): Members {
    match obj case None => m case Some(o) => WithEntry(m, Text("me"), o)
  }

  /** The code index and closure chain of a callable value. */
  function Callee(params: seq<Params>, h: Heap, f: Value): (r: Res<(nat, seq<nat>)>)
    ensures r.Ok? ==> r.value.0 < |params|
  {
    if f.Func? && f.addr < |h| && h[f.addr].FuncObj? && h[f.addr].code < |params| then
      Ok((h[f.addr].code, h[f.addr].scopes))
    else Err("function/method call on uncallable object")
  }

  /** Positional call: a fresh namespace holding `me`, the named arguments, the
      optional ones or their defaults, and the vector of what remains. */
  function EnterCall(params: seq<Params>, h: Heap, f: Value, obj: Option<Value>, args: seq<Value>): (r: Res<Entry>)
    ensures r.Ok? ==> r.value.code < |params| && r.value.env.names == params[r.value.code].names
  {
    var (code, scopes) :- Callee(params, h, f);
    var p := params[code];
    if |args| < |p.args| then Err("too few function args")
    else
      var positional := WithMe(map[], obj) + BindNames(p.names, p.args, args)
                        + BindDefaults(p.names, p.opts, Drop(args, |p.args|));
      var extra := Drop(args, |p.args| + |p.opts|);
      var env := Env(|h|, scopes, p.names);
      if p.needVector || extra != [] then
        Ok(Entry(code, env, h + [HashObj(WithEntry(positional, Name(p.names, p.rest), Vec(|h| + 1))), VecObj(extra)]))
      else
        Ok(Entry(code, env, h + [HashObj(positional)]))
  }

  /** Required arguments are looked for by object. */
  predicate HasAll(host: Host, names: string -> Ident, m: Members, args: seq<string>) {
    forall i :: 0 <= i < |args| ==>
      if host.byText then Text(args[i]) in m else HoldsObject(m, Name(names, args[i]))
  }

  /** Call with named arguments: the hash itself becomes the namespace. */
  function EnterNamed(host: Host, params: seq<Params>, h: Heap, f: Value, obj: Option<Value>, named: Value):
    (r: Res<Entry>)
    ensures r.Ok? ==> r.value.code < |params| && r.value.env.names == params[r.value.code].names
  {
    var (code, scopes) :- Callee(params, h, f);
    if !IsHash(h, named) then Err("named arguments not a hash")
    else
      var p := params[code];
      var given := WithMe(h[named.addr].members, obj);
      if !HasAll(host, p.names, given, p.args) then Err("Missing arg")
      else
        var full := BindDefaults(p.names, p.opts, []) + given;
        var env := Env(named.addr, scopes, p.names);
        if p.needVector && Text(p.rest) !in full then
          Ok(Entry(code, env,
                   h[named.addr := HashObj(WithEntry(full, Name(p.names, p.rest), Vec(|h|)))] + [VecObj([])]))
        else
          Ok(Entry(code, env, h[named.addr := HashObj(full)]))
  }
}
