/** The compiler is correct: a program and its compiled image behave alike in
    every run, whether it ends with a value, with an error, or never. Both look
    symbols up by string object first; `Symbols` says what that means by text. */
module Correctness {
  import opened Values
  import opened Syntax
  import opened Semantics
  import opened Machine
  import opened Layout
  import opened Runs
  import opened Instructions
  import opened Simulation
  import opened Correspondence

  /** A fresh context about to run function `f`. */
  function Start(f: nat, env: Env, h: Heap): State {
    State(0, f, env, 0, [], [], [], h)
  }

  /** How the run of a whole function ends, by the semantics. */
  function Meaning(p: Program, fuel: nat, f: nat, env: Env, h: Heap): (o: Outcome)
    requires f < |p.bodies|
  {
    Eval(p, fuel, p.bodies[f], env, h, [])
  }

  function StatusOf(o: Outcome): Status {
    match o
    case Normal(vs, h) => Done(Top(o), h)
    case Ret(v, h) => Done(v, h)
    case Fail(e) => Failed(e)
    case _ => Stuck
  }

  /** An evaluation that ends within its fuel is what the machine does; one that
      does not keeps the machine running for at least as many steps. */
  lemma RunMatches(p: Program, m: Image, fuel: nat, f: nat, env: Env, h: Heap)
    requires Linked(p, m) && f < |p.bodies| && env.names == p.params[f].names
    ensures var o := Meaning(p, fuel, f, env, h);
            && !o.Brk? && !o.Cont?
            && (o.Timeout? ==> LiveFor(m, Start(f, env, h), fuel))
            && (!o.Timeout? ==> Yields(m, Start(f, env, h), StatusOf(o)))
  {
    hide Step, Yields, LiveFor, Eval, Emitted, WellFormed, Len;
    var s := Start(f, env, h);
    var body := p.bodies[f];
    var o := Meaning(p, fuel, f, env, h);
    SimExpr(p, m, fuel, body, s, [], []);
    if o.Normal? {
      var t := After(s, Len(body, []), o);
      DoReturn(m, t, o.vals[0]);
      YieldsStep(m, s, t, Step(m, t));
    }
  }

  /** The machine stops with a result exactly when the semantics has it. */
  lemma SameResults(p: Program, m: Image, f: nat, env: Env, h: Heap, st: Status)
    requires Linked(p, m) && f < |p.bodies| && env.names == p.params[f].names && !st.Running?
    ensures (exists n: nat :: Steps(m, n, Start(f, env, h)) == st)
            <==> (exists fuel: nat :: var o := Meaning(p, fuel, f, env, h); !o.Timeout? && StatusOf(o) == st)
  {
    hide Step, Eval, Emitted, WellFormed, Len, Linked;
    var s := Start(f, env, h);
    if n: nat :| Steps(m, n, s) == st {
      RunMatches(p, m, n, f, env, h);
      var o := Meaning(p, n, f, env, h);
      assert !o.Timeout?;
      var k: nat :| Steps(m, k, s) == StatusOf(o);
      StopsOnce(m, s, n, k);
    }
    if fuel: nat :| var o := Meaning(p, fuel, f, env, h); !o.Timeout? && StatusOf(o) == st {
      RunMatches(p, m, fuel, f, env, h);
    }
  }

  ghost predicate RunsForever(m: Image, s: State) {
    forall n: nat :: LiveFor(m, s, n)
  }

  ghost predicate Diverges(p: Program, f: nat, env: Env, h: Heap)
    requires f < |p.bodies|
  {
    forall fuel: nat :: Meaning(p, fuel, f, env, h) == Timeout
  }

  /** The machine runs forever exactly when no amount of fuel is enough. */
  lemma SameDivergence(p: Program, m: Image, f: nat, env: Env, h: Heap)
    requires Linked(p, m) && f < |p.bodies| && env.names == p.params[f].names
    ensures RunsForever(m, Start(f, env, h)) <==> Diverges(p, f, env, h)
  {
    hide Step, Eval, Emitted, WellFormed, Len, Linked;
    var s := Start(f, env, h);
    if fuel: nat :| Meaning(p, fuel, f, env, h) != Timeout {
      RunMatches(p, m, fuel, f, env, h);
      var k: nat :| Steps(m, k, s) == StatusOf(Meaning(p, fuel, f, env, h));
      assert !LiveFor(m, s, k);
    } else {
      forall n: nat
        ensures LiveFor(m, s, n)
      {
        RunMatches(p, m, n, f, env, h);
      }
    }
  }

  /** No run underflows a stack, jumps out of its code or meets an unknown word. */
  lemma NeverStuck(p: Program, m: Image, f: nat, env: Env, h: Heap, n: nat)
    requires Linked(p, m) && f < |p.bodies| && env.names == p.params[f].names
    ensures Steps(m, n, Start(f, env, h)) != Stuck
  {
    hide Step, Eval, Emitted, WellFormed, Len, Linked;
    var s := Start(f, env, h);
    RunMatches(p, m, n, f, env, h);
    var o := Meaning(p, n, f, env, h);
    if !o.Timeout? && !Steps(m, n, s).Running? {
      var k: nat :| Steps(m, k, s) == StatusOf(o);
      StopsOnce(m, s, n, k);
    }
  }
}
