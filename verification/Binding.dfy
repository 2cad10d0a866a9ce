/** What the names of a called function are bound to. */
module Binding {
  import opened Basics
  import opened Values

  /** `x` is entered under the object that the function's constants have for it, with this value. */
  ghost predicate Binds(m: Members, names: string -> Ident, x: string, v: Value) {
    Str(x, Interned) in m && m[Str(x, Interned)] == Cell(Str(x, names(x)), v)
  }

  /** The default of an optional parameter: a constant of the function. */
  ghost predicate IsDefault(names: string -> Ident, d: Value, v: Value) {
    if d.Str? then v == Str(d.s, names(d.s)) else v == d
  }

  /** A key of the text `x` and no other is a string. */
  ghost predicate Spells(k: Value, x: string) { k == Str(x, Interned) }

  // ----- the parameters one by one -----

  lemma {:induction false} KeysOfNames(names: string -> Ident, args: seq<string>, vals: seq<Value>, k: Value)
    requires |args| <= |vals|
    ensures k in BindNames(names, args, vals) <==> exists i :: 0 <= i < |args| && Spells(k, args[i])
  {
    if args != [] {
      KeysOfNames(names, args[1..], vals[1..], k);
      assert forall i :: 0 < i < |args| ==> args[i] == args[1..][i - 1];
      if i :| 0 <= i < |args[1..]| && Spells(k, args[1..][i]) {
        assert Spells(k, args[i + 1]);
      }
    }
  }

  /** The argument in the place of its name. */
  lemma {:induction false} NameBinds(names: string -> Ident, args: seq<string>, vals: seq<Value>, i: nat)
    requires i < |args| <= |vals| && Distinct(args)
    ensures Binds(BindNames(names, args, vals), names, args[i], vals[i])
  {
    KeysOfNames(names, args[1..], vals[1..], Str(args[0], Interned));
    if i > 0 {
      NameBinds(names, args[1..], vals[1..], i - 1);
    }
  }

  ghost predicate BindsOpt(m: Members, names: string -> Ident, opt: (string, Value), vals: seq<Value>, i: nat) {
    && Str(opt.0, Interned) in m && m[Str(opt.0, Interned)].key == Str(opt.0, names(opt.0))
    && (i < |vals| ==> m[Str(opt.0, Interned)].val == vals[i])
    && (i >= |vals| ==> IsDefault(names, opt.1, m[Str(opt.0, Interned)].val))
  }

  ghost predicate DistinctOpts(opts: seq<(string, Value)>) {
    forall i, j :: 0 <= i < j < |opts| ==> opts[i].0 != opts[j].0
  }

  lemma {:induction false} KeysOfDefaults(names: string -> Ident, opts: seq<(string, Value)>, vals: seq<Value>,
      k: Value)
    ensures k in BindDefaults(names, opts, vals) <==> exists i :: 0 <= i < |opts| && Spells(k, opts[i].0)
  {
    if opts != [] {
      KeysOfDefaults(names, opts[1..], if vals == [] then [] else vals[1..], k);
      assert forall i :: 0 < i < |opts| ==> opts[i] == opts[1..][i - 1];
      if i :| 0 <= i < |opts[1..]| && Spells(k, opts[1..][i].0) {
        assert Spells(k, opts[i + 1].0);
      }
    }
  }

  /** The argument in the place of an optional parameter, or its default. */
  lemma {:induction false} DefaultBinds(names: string -> Ident, opts: seq<(string, Value)>, vals: seq<Value>, i: nat)
    requires i < |opts| && DistinctOpts(opts)
    ensures BindsOpt(BindDefaults(names, opts, vals), names, opts[i], vals, i)
  {
    var later := if vals == [] then [] else vals[1..];
    KeysOfDefaults(names, opts[1..], later, Str(opts[0].0, Interned));
    if i > 0 {
      DefaultBinds(names, opts[1..], later, i - 1);
    }
  }

  // ----- positional calls -----

  /** The value is a closure whose code is function `c`. */
  predicate Closure(params: seq<Params>, h: Heap, f: Value, c: nat) {
    f.Func? && f.addr < |h| && h[f.addr].FuncObj? && h[f.addr].code == c < |params|
  }

  /** The names of a function are different as far as a call with `n` arguments uses them. */
  ghost predicate DistinctNames(p: Params, n: nat) {
    && Distinct(p.args) && DistinctOpts(p.opts)
    && (forall i, j :: 0 <= i < |p.args| && 0 <= j < |p.opts| ==> p.args[i] != p.opts[j].0)
    && (p.needVector || n > |p.args| + |p.opts| ==>
          && (forall i :: 0 <= i < |p.args| ==> p.args[i] != p.rest)
          && (forall j :: 0 <= j < |p.opts| ==> p.opts[j].0 != p.rest))
  }

  /** A positional call fails when the value is no closure or arguments are missing, and only then. */
  lemma CallFailsIff(params: seq<Params>, h: Heap, f: Value, obj: Option<Value>, args: seq<Value>)
    ensures EnterCall(params, h, f, obj, args).Ok?
            <==> exists c: nat :: Closure(params, h, f, c) && |args| >= |params[c].args|
  {
    if Callee(params, h, f).Ok? {
      assert Closure(params, h, f, Callee(params, h, f).value.0);
    }
  }

  /** A positional call starts the closure's code in a new namespace inside the closure's own. */
  lemma CallStarts(params: seq<Params>, h: Heap, f: Value, obj: Option<Value>, args: seq<Value>, c: nat)
    requires Closure(params, h, f, c) && |args| >= |params[c].args|
    ensures var p := params[c];
      var r := EnterCall(params, h, f, obj, args);
      && r.Ok? && r.value.code == c
      && r.value.env == Env(|h|, h[f.addr].scopes, p.names)
      && h < r.value.heap && r.value.heap[|h|].HashObj?
      && |r.value.heap| == |h| + (if p.needVector || |args| > |p.args| + |p.opts| then 2 else 1)
  {
  }

  /** The namespace of a positional call before the vector of the remaining arguments. */
  function Positional(p: Params, obj: Option<Value>, args: seq<Value>): Members
    requires |args| >= |p.args|
  {
    WithMe(map[], obj) + BindNames(p.names, p.args, args) + BindDefaults(p.names, p.opts, Drop(args, |p.args|))
  }

  lemma CallMembers(params: seq<Params>, h: Heap, f: Value, obj: Option<Value>, args: seq<Value>, c: nat)
    requires Closure(params, h, f, c) && |args| >= |params[c].args|
    ensures var p := params[c];
      var n := |p.args| + |p.opts|;
      var r := EnterCall(params, h, f, obj, args);
      r.Ok? && if p.needVector || |args| > n then
        r.value.heap == h + [HashObj(WithEntry(Positional(p, obj, args), Name(p.names, p.rest), Vec(|h| + 1))),
                             VecObj(if n <= |args| then args[n..] else [])]
      else r.value.heap == h + [HashObj(Positional(p, obj, args))]
  {
  }

  lemma PositionalBinds(p: Params, obj: Option<Value>, args: seq<Value>)
    requires |args| >= |p.args| && DistinctNames(p, |args|)
    ensures var m := Positional(p, obj, args);
      && (forall i :: 0 <= i < |p.args| ==> Binds(m, p.names, p.args[i], args[i]))
      && (forall j :: 0 <= j < |p.opts| ==> BindsOpt(m, p.names, p.opts[j], args[|p.args|..], j))
  {
    var late := BindDefaults(p.names, p.opts, args[|p.args|..]);
    forall i | 0 <= i < |p.args| ensures Binds(Positional(p, obj, args), p.names, p.args[i], args[i]) {
      NameBinds(p.names, p.args, args, i);
      KeysOfDefaults(p.names, p.opts, args[|p.args|..], Str(p.args[i], Interned));
    }
    forall j | 0 <= j < |p.opts| ensures BindsOpt(Positional(p, obj, args), p.names, p.opts[j], args[|p.args|..], j) {
      DefaultBinds(p.names, p.opts, args[|p.args|..], j);
    }
  }

  lemma PositionalKeys(p: Params, obj: Option<Value>, args: seq<Value>, k: Value)
    requires |args| >= |p.args|
    ensures k in Positional(p, obj, args)
            <==> || (obj.Some? && Spells(k, "me")) || (exists i :: 0 <= i < |p.args| && Spells(k, p.args[i]))
                 || (exists j :: 0 <= j < |p.opts| && Spells(k, p.opts[j].0))
  {
    KeysOfNames(p.names, p.args, args, k);
    KeysOfDefaults(p.names, p.opts, args[|p.args|..], k);
  }

  /** Each parameter is bound to its argument and each optional one to its argument or default. */
  lemma CallBinds(params: seq<Params>, h: Heap, f: Value, obj: Option<Value>, args: seq<Value>, c: nat)
    requires Closure(params, h, f, c) && |args| >= |params[c].args| && DistinctNames(params[c], |args|)
    ensures var p := params[c];
      var r := EnterCall(params, h, f, obj, args);
      r.Ok? && |h| < |r.value.heap| && r.value.heap[|h|].HashObj? &&
      var m := r.value.heap[|h|].members;
      && (forall i :: 0 <= i < |p.args| ==> Binds(m, p.names, p.args[i], args[i]))
      && (forall j :: 0 <= j < |p.opts| && |p.args| + j < |args| ==> Binds(m, p.names, p.opts[j].0, args[|p.args| + j]))
      && (forall j :: 0 <= j < |p.opts| && |p.args| + j >= |args| ==>
            && Str(p.opts[j].0, Interned) in m
            && IsDefault(p.names, p.opts[j].1, m[Str(p.opts[j].0, Interned)].val))
  {
    hide EnterCall, BindNames, BindDefaults;
    var p := params[c];
    CallMembers(params, h, f, obj, args, c);
    PositionalBinds(p, obj, args);
    var m := EnterCall(params, h, f, obj, args).value.heap[|h|].members;
    forall j | 0 <= j < |p.opts| ensures BindsOpt(m, p.names, p.opts[j], args[|p.args|..], j) {
      assert BindsOpt(Positional(p, obj, args), p.names, p.opts[j], args[|p.args|..], j);
    }
  }

  /** The arguments that are left over are in the vector of the last name, which is there when the
      function asks for it or when there are any; otherwise no vector is made. */
  lemma CallCollects(params: seq<Params>, h: Heap, f: Value, obj: Option<Value>, args: seq<Value>, c: nat)
    requires Closure(params, h, f, c) && |args| >= |params[c].args| && DistinctNames(params[c], |args|)
    ensures var p := params[c];
      var n := |p.args| + |p.opts|;
      var r := EnterCall(params, h, f, obj, args);
      r.Ok? && |h| < |r.value.heap| && r.value.heap[|h|].HashObj? &&
      (p.needVector || |args| > n ==>
         && Str(p.rest, Interned) in r.value.heap[|h|].members
         && r.value.heap[|h|].members[Str(p.rest, Interned)].val == Vec(|h| + 1)
         && |h| + 1 < |r.value.heap| && r.value.heap[|h| + 1] == VecObj(if n <= |args| then args[n..] else []))
  {
    hide BindNames, BindDefaults;
    CallMembers(params, h, f, obj, args, c);
  }

  /** A method call binds `me` to its object, unless a parameter has this name. Nothing else is bound. */
  lemma CallBindsMe(params: seq<Params>, h: Heap, f: Value, obj: Option<Value>, args: seq<Value>, c: nat)
    requires Closure(params, h, f, c) && |args| >= |params[c].args|
    ensures var p := params[c];
      var r := EnterCall(params, h, f, obj, args);
      r.Ok? && |h| < |r.value.heap| && r.value.heap[|h|].HashObj? &&
      var m := r.value.heap[|h|].members;
      && (obj.Some? && "me" !in p.args && (forall j :: 0 <= j < |p.opts| ==> p.opts[j].0 != "me") && p.rest != "me" ==>
            Str("me", Interned) in m && m[Str("me", Interned)] == Cell(Str("me", Interned), obj.value))
      && (forall k :: k in m ==>
            || (obj.Some? && Spells(k, "me")) || (exists i :: 0 <= i < |p.args| && Spells(k, p.args[i]))
            || (exists j :: 0 <= j < |p.opts| && Spells(k, p.opts[j].0))
            || (Spells(k, p.rest) && (p.needVector || |args| > |p.args| + |p.opts|)))
  {
    hide EnterCall, BindNames, BindDefaults;
    var p := params[c];
    CallMembers(params, h, f, obj, args, c);
    forall k ensures k in Positional(p, obj, args)
            <==> || (obj.Some? && Spells(k, "me")) || (exists i :: 0 <= i < |p.args| && Spells(k, p.args[i]))
                 || (exists j :: 0 <= j < |p.opts| && Spells(k, p.opts[j].0)) {
      PositionalKeys(p, obj, args, k);
    }
    if obj.Some? && "me" !in p.args && forall j :: 0 <= j < |p.opts| ==> p.opts[j].0 != "me" {
      MeStays(p, obj, args);
    }
  }

  lemma MeStays(p: Params, obj: Option<Value>, args: seq<Value>)
    requires |args| >= |p.args| && obj.Some? && "me" !in p.args
    requires forall j :: 0 <= j < |p.opts| ==> p.opts[j].0 != "me"
    ensures var m := Positional(p, obj, args);
            Str("me", Interned) in m && m[Str("me", Interned)] == Cell(Str("me", Interned), obj.value)
  {
    KeysOfNames(p.names, p.args, args, Str("me", Interned));
    KeysOfDefaults(p.names, p.opts, args[|p.args|..], Str("me", Interned));
  }

  // ----- calls with named arguments -----

  /** A required parameter is given: in the hash under its own object, or as `me`, which a method call enters
      as a symbol unless the hash has a `me`. With symbols found by text it is enough that the text is there. */
  ghost predicate Given(host: Host, names: string -> Ident, m: Members, obj: Option<Value>, x: string) {
    if Str(x, Interned) in m then host.byText || m[Str(x, Interned)].key == Str(x, names(x))
    else x == "me" && obj.Some? && (host.byText || names(x) == Interned)
  }

  /** A call with named arguments fails when the value is no closure, when the arguments are no hash, and
      when a required one is missing, and only then. */
  lemma NamedFailsIff(host: Host, params: seq<Params>, h: Heap, f: Value, obj: Option<Value>, named: Value)
    ensures EnterNamed(host, params, h, f, obj, named).Ok?
            <==> exists c: nat :: Closure(params, h, f, c) && named.Hash? && named.addr < |h| && h[named.addr].HashObj?
                   && forall x :: x in params[c].args ==> Given(host, params[c].names, h[named.addr].members, obj, x)
  {
    if Callee(params, h, f).Ok? && IsHash(h, named) {
      var c := Callee(params, h, f).value.0;
      var p := params[c];
      assert Closure(params, h, f, c);
      forall x ensures Given(host, p.names, h[named.addr].members, obj, x)
                       <==> var m := WithMe(h[named.addr].members, obj);
                            if host.byText then Text(x) in m else HoldsObject(m, Name(p.names, x)) {
      }
      assert forall i :: 0 <= i < |p.args| ==> p.args[i] in p.args;
    }
  }

  /** The names a call with named arguments runs with: `me` for a method, then what the hash has, then the
      defaults of the optional parameters, then an empty vector for the rest; and the rest of the heap stays. */
  lemma NamedBinds(host: Host, params: seq<Params>, h: Heap, f: Value, obj: Option<Value>, named: Value, c: nat)
    requires EnterNamed(host, params, h, f, obj, named).Ok? && Closure(params, h, f, c) && DistinctOpts(params[c].opts)
    ensures named.Hash? && named.addr < |h| && h[named.addr].HashObj?
    ensures var p := params[c];
      var hash := h[named.addr].members;
      var en := EnterNamed(host, params, h, f, obj, named).value;
      && en.code == c && en.env == Env(named.addr, h[f.addr].scopes, p.names)
      && |h| <= |en.heap| && (forall i :: 0 <= i < |h| && i != named.addr ==> en.heap[i] == h[i])
      && en.heap[named.addr].HashObj? &&
      var m := en.heap[named.addr].members;
      && (obj.Some? ==> Str("me", Interned) in m && m[Str("me", Interned)].val == obj.value)
      && (forall k :: k in hash && !(obj.Some? && Spells(k, "me")) ==> k in m && m[k] == hash[k])
      && (forall j :: 0 <= j < |p.opts| ==>
            var k := Str(p.opts[j].0, Interned);
            k in m && (k !in hash && !(obj.Some? && Spells(k, "me")) ==> IsDefault(p.names, p.opts[j].1, m[k].val)))
      && (forall k :: k in m ==> k in hash || (obj.Some? && Spells(k, "me")) || (p.needVector && Spells(k, p.rest))
                                 || exists j :: 0 <= j < |p.opts| && Spells(k, p.opts[j].0))
      && (!p.needVector || Str(p.rest, Interned) in hash ==> |en.heap| == |h|)
      && (p.needVector && Str(p.rest, Interned) !in hash && !(obj.Some? && p.rest == "me")
            && (forall j :: 0 <= j < |p.opts| ==> p.opts[j].0 != p.rest) ==>
            && Str(p.rest, Interned) in m && m[Str(p.rest, Interned)].val == Vec(|h|)
            && |en.heap| == |h| + 1 && en.heap[|h|] == VecObj([]))
  {
    hide BindDefaults, HasAll;
    var p := params[c];
    var hash := h[named.addr].members;
    var given := WithMe(hash, obj);
    var full := BindDefaults(p.names, p.opts, []) + given;
    var m := EnterNamed(host, params, h, f, obj, named).value.heap[named.addr].members;
    forall j | 0 <= j < |p.opts| ensures var k := Str(p.opts[j].0, Interned);
            k in full && (k !in given ==> IsDefault(p.names, p.opts[j].1, full[k].val)) {
      DefaultBinds(p.names, p.opts, [], j);
    }
    forall k ensures k in BindDefaults(p.names, p.opts, [])
                     <==> exists j :: 0 <= j < |p.opts| && Spells(k, p.opts[j].0) {
      KeysOfDefaults(p.names, p.opts, [], k);
    }
  }
}
