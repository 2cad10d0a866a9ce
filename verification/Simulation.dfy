/** What it means that a run from a state ends as an evaluation does, and how such
    runs compose. */
module Simulation {
  import opened Values
  import opened Syntax
  import opened Semantics
  import opened Machine
  import opened Layout
  import opened Runs
  import opened Instructions

  /** The code objects are those of the program. */
  ghost predicate Linked(p: Program, m: Image) {
    && m.host == p.host && m.params == p.params
    && |m.codes| == |p.bodies| == |p.params|
    && forall i :: 0 <= i < |p.bodies| ==> LinkedBody(p.bodies[i], m.codes[i]) && Shares(m.codes[i], p.params[i].names)
  }

  ghost predicate LinkedBody(body: Expr, c: CodeObj) {
    WellFormed(body, []) && Emitted(body, [], [], c, 0) && Op(c, Len(body, []), OP_RETURN)
  }

  /** The marks of the function's `d` enclosing loops are on top of the mark
      stack, in order, at heights within this call's part of the operand stack. */
  ghost predicate Anchored(s: State, d: nat) {
    && d <= |s.marks| && s.bp <= |s.ops|
    && (forall i :: |s.marks| - d <= i < |s.marks| ==> s.bp <= s.marks[i] <= |s.ops|)
    && (forall i, j :: |s.marks| - d <= i <= j < |s.marks| ==> s.marks[i] <= s.marks[j])
  }

  ghost predicate Ready(p: Program, m: Image, s: State, ctx: Ctx, tg: Targets) {
    && m.host == p.host && m.params == p.params && Linked(p, m)
    && s.code < |m.codes| && Shares(m.codes[s.code], s.env.names) && |ctx| == |tg| && Anchored(s, |ctx|)
  }

  function After(s: State, next: nat, o: Outcome): State
    requires o.Normal?
  {
    s.(ip := next, ops := s.ops + o.vals, heap := o.heap)
  }

  /** At loop `j` of `d`: the operands are cut back to the height of its mark,
      and the marks above it are gone. */
  function Unwound(s: State, d: nat, j: nat, ip: nat, extra: seq<Value>, h: Heap): State
    requires d <= |s.marks| && j < d && s.marks[|s.marks| - d + j] <= |s.ops|
  {
    var k := |s.marks| - d + j;
    s.(ip := ip, ops := s.ops[..s.marks[k]] + extra, marks := s.marks[..k + 1], heap := h)
  }

  predicate Inner(o: Outcome, ctx: Ctx) {
    o.Brk? || o.Cont? ==> o.loop < |ctx| && ctx[o.loop].open
  }

  /** Where evaluation leads when it does not leave values. */
  function Elsewhere(s: State, d: nat, tg: Targets, o: Outcome): Status
    requires Anchored(s, d) && |tg| == d && !o.Normal?
    requires o.Brk? || o.Cont? ==> o.loop < d
  {
    match o
    case Brk(j, h) => Running(Unwound(s, d, j, tg[j].breakIP, [End], h))
    case Cont(j, h) => Running(Unwound(s, d, j, tg[j].contIP, [], h))
    case Ret(v, h) => Returned(s, s.marks[..|s.marks| - d], v, h)
    case Fail(e) => Failed(e)
    case Timeout => Stuck
  }

  /** A run from `r` ends where an evaluation leads that leaves `s`. */
  ghost predicate Leaves(m: Image, r: State, s: State, ctx: Ctx, tg: Targets, fuel: nat, o: Outcome)
    requires Anchored(s, |ctx|) && |tg| == |ctx| && !o.Normal?
  {
    Inner(o, ctx) && if o.Timeout? then LiveFor(m, r, fuel) else Yields(m, r, Elsewhere(s, |ctx|, tg, o))
  }

  /** A run from `r` ends as an evaluation started in `s` does: at `next` with
      exactly the outcome's values pushed, or leaving as the outcome leaves, or
      running on for at least `fuel` steps. */
  ghost predicate Ends(m: Image, r: State, s: State, next: nat, ctx: Ctx, tg: Targets, fuel: nat, o: Outcome)
    requires Anchored(s, |ctx|) && |tg| == |ctx|
  {
    if o.Normal? then Yields(m, r, Running(After(s, next, o))) else Leaves(m, r, s, ctx, tg, fuel, o)
  }

  ghost predicate Simulates(m: Image, s: State, next: nat, ctx: Ctx, tg: Targets, fuel: nat, o: Outcome)
    requires Anchored(s, |ctx|) && |tg| == |ctx|
  {
    Ends(m, s, s, next, ctx, tg, fuel, o)
  }

  /** `t` is inside `s`: more operands and perhaps more marks, same call. */
  ghost predicate Within(s: State, ctx: Ctx, tg: Targets, t: State, ctx1: Ctx, tg1: Targets) {
    && t.code == s.code && t.env == s.env && t.bp == s.bp && t.callers == s.callers
    && s.ops <= t.ops && s.marks <= t.marks && ctx <= ctx1 && tg <= tg1
    && |t.marks| - |ctx1| == |s.marks| - |ctx|
  }

  predicate Below(o: Outcome, ctx: Ctx) { o.Brk? || o.Cont? ==> o.loop < |ctx| }

  /** A part simulated at an inner state `t` is simulated from any state `r`
      that reaches `t`; what leaves `t` leaves `s` in the same way. */
  lemma Compose(m: Image, r: State, s: State, ctx: Ctx, tg: Targets,
                t: State, ctx1: Ctx, tg1: Targets, next: nat, fuel: nat, o: Outcome)
    requires Anchored(s, |ctx|) && |tg| == |ctx| && Anchored(t, |ctx1|) && |tg1| == |ctx1|
    requires Yields(m, r, Running(t)) && Within(s, ctx, tg, t, ctx1, tg1)
    requires Simulates(m, t, next, ctx1, tg1, fuel, o)
    ensures o.Normal? ==> Yields(m, r, Running(After(t, next, o)))
    ensures !o.Normal? ==> Leaves(m, r, t, ctx1, tg1, fuel, o)
    ensures !o.Normal? && Below(o, ctx) ==> Leaves(m, r, s, ctx, tg, fuel, o)
  {
    hide Step, Yields, LiveFor;
    if o.Normal? {
      YieldsThen(m, r, t, Running(After(t, next, o)));
    } else if o.Timeout? {
      LiveThen(m, r, t, fuel);
    } else {
      YieldsThen(m, r, t, Elsewhere(t, |ctx1|, tg1, o));
      if Below(o, ctx) {
        SameElsewhere(s, ctx, tg, t, ctx1, tg1, o);
      }
    }
  }

  lemma SameElsewhere(s: State, ctx: Ctx, tg: Targets, t: State, ctx1: Ctx, tg1: Targets, o: Outcome)
    requires Anchored(s, |ctx|) && |tg| == |ctx| && Anchored(t, |ctx1|) && |tg1| == |ctx1|
    requires Within(s, ctx, tg, t, ctx1, tg1) && !o.Normal? && Below(o, ctx) && Inner(o, ctx1)
    ensures Inner(o, ctx) && Elsewhere(s, |ctx|, tg, o) == Elsewhere(t, |ctx1|, tg1, o)
  {
    var b := |s.marks| - |ctx|;
    if o.Brk? || o.Cont? {
      var k := s.marks[b + o.loop];
      assert t.ops[..k] == s.ops[..k];
      assert tg1[o.loop] == tg[o.loop] && ctx1[o.loop] == ctx[o.loop];
      assert t.marks[..b + o.loop + 1] == s.marks[..b + o.loop + 1];
    } else {
      assert t.ops[..s.bp] == s.ops[..s.bp];
      assert t.marks[..b] == s.marks[..b];
    }
  }

  lemma EndsEarlier(m: Image, r: State, t: State, s: State, next: nat, ctx: Ctx, tg: Targets, fuel: nat, o: Outcome)
    requires Anchored(s, |ctx|) && |tg| == |ctx|
    requires Yields(m, r, Running(t)) && Ends(m, t, s, next, ctx, tg, fuel, o)
    ensures Ends(m, r, s, next, ctx, tg, fuel, o)
  {
    hide Step, Yields, LiveFor;
    if o.Timeout? {
      LiveThen(m, r, t, fuel);
    } else {
      YieldsThen(m, r, t, if o.Normal? then Running(After(s, next, o)) else Elsewhere(s, |ctx|, tg, o));
    }
  }

  /** A step back to the start of an iteration pays for one unit of fuel. */
  lemma EndsAgain(m: Image, r: State, x: State, t: State, s: State, next: nat, ctx: Ctx, tg: Targets, fuel: nat,
      o: Outcome)
    requires Anchored(s, |ctx|) && |tg| == |ctx| && fuel > 0
    requires Yields(m, r, Running(x)) && Step(m, x) == Running(t) && Ends(m, t, s, next, ctx, tg, fuel - 1, o)
    ensures Ends(m, r, s, next, ctx, tg, fuel, o)
  {
    hide Step, Yields, LiveFor;
    if o.Timeout? {
      LiveAfterStep(m, r, x, t, fuel - 1);
    } else {
      YieldsStep(m, r, x, Running(t));
      YieldsThen(m, r, t, if o.Normal? then Running(After(s, next, o)) else Elsewhere(s, |ctx|, tg, o));
    }
  }

  /** Between two statements of a loop that began in `s`: the operands are back
      at `base`, whose height is the topmost mark. */
  ghost predicate Looping(s: State, t: State, base: seq<Value>) {
    && t == s.(ip := t.ip, ops := base, marks := s.marks + [|base|], heap := t.heap)
    && s.ops <= base
  }

  lemma LoopReady(p: Program, m: Image, s: State, ctx: Ctx, tg: Targets, t: State, base: seq<Value>, sc: Scope,
      target: Target)
    requires Ready(p, m, s, ctx, tg) && Looping(s, t, base)
    ensures Ready(p, m, t, ctx + [sc], tg + [target])
    ensures Within(s, ctx, tg, t, ctx + [sc], tg + [target])
  {
    hide Linked;
  }
}
