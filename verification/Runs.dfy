/** Runs of the machine: what a state leads to, and how runs compose. */
module Runs {
  import opened Machine

  /** Some number of steps from `s` ends in `st`. */
  ghost predicate Yields(m: Image, s: State, st: Status) {
    exists n: nat :: Steps(m, n, s) == st
  }

  /** The machine is still running after `n` steps. */
  ghost predicate LiveFor(m: Image, s: State, n: nat) {
    Steps(m, n, s).Running?
  }

  lemma {:induction false} StepsSplit(m: Image, n: nat, k: nat, s: State, t: State)
    requires Steps(m, n, s) == Running(t)
    ensures Steps(m, n + k, s) == Steps(m, k, t)
    decreases n
  {
    hide Step;
    if n > 0 {
      StepsSplit(m, n - 1, k, Step(m, s).s, t);
    }
  }

  lemma {:induction false} StepsLive(m: Image, n: nat, k: nat, s: State)
    requires Steps(m, n, s).Running? && k <= n
    ensures Steps(m, k, s).Running?
    decreases k
  {
    hide Step;
    if k > 0 {
      StepsLive(m, n - 1, k - 1, Step(m, s).s);
    }
  }

  lemma YieldsHere(m: Image, s: State)
    ensures Yields(m, s, Running(s))
  {
    hide Step;
    assert Steps(m, 0, s) == Running(s);
  }

  lemma YieldsThen(m: Image, s: State, t: State, st: Status)
    requires Yields(m, s, Running(t)) && Yields(m, t, st)
    ensures Yields(m, s, st)
  {
    hide Step;
    var n: nat :| Steps(m, n, s) == Running(t);
    var k: nat :| Steps(m, k, t) == st;
    StepsSplit(m, n, k, s, t);
  }

  lemma StepYields(m: Image, s: State)
    ensures Yields(m, s, Step(m, s))
  {
    hide Step;
    assert Steps(m, 1, s) == Step(m, s) by {
      if Step(m, s).Running? {
        assert Steps(m, 0, Step(m, s).s) == Step(m, s);
      }
    }
  }

  lemma YieldsStep(m: Image, s: State, t: State, st: Status)
    requires Yields(m, s, Running(t)) && Step(m, t) == st
    ensures Yields(m, s, st)
  {
    hide Step;
    StepYields(m, t);
    YieldsThen(m, s, t, st);
  }

  lemma LiveThen(m: Image, s: State, t: State, n: nat)
    requires Yields(m, s, Running(t)) && LiveFor(m, t, n)
    ensures LiveFor(m, s, n)
  {
    hide Step;
    var k: nat :| Steps(m, k, s) == Running(t);
    StepsSplit(m, k, n, s, t);
    StepsLive(m, k + n, n, s);
  }

  /** A step on the way adds to the count: what makes fuel a lower bound. */
  lemma LiveAfterStep(m: Image, s: State, t: State, u: State, n: nat)
    requires Yields(m, s, Running(t)) && Step(m, t) == Running(u) && LiveFor(m, u, n)
    ensures LiveFor(m, s, n + 1)
  {
    hide Step;
    LiveThen(m, s, t, n + 1) by {
      assert Steps(m, n + 1, t) == Steps(m, n, u);
    }
  }

  /** The machine is deterministic: it stops in one way only. */
  lemma StopsOnce(m: Image, s: State, n: nat, k: nat)
    requires !Steps(m, n, s).Running? && !Steps(m, k, s).Running?
    ensures Steps(m, n, s) == Steps(m, k, s)
    decreases n
  {
    hide Step;
    match Step(m, s)
    case Running(t) => StopsOnce(m, t, n - 1, k - 1);
    case _ =>
  }
}
