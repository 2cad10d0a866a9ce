/** Which pointers a thread may keep. A block that is in place when a thread reads
    its target cannot be freed before that thread calls the bottleneck. Over a call
    that replaces a block the answer is not the one the callers count on: hash.c
    goes on with the record it has just put in place, and this is safe exactly when
    the call does not put the thread to sleep. */
module Keeping {
  import opened Protocol
  import opened Bottleneck

  /** Nothing is freed while some thread is about its own work: a block that was in
      place when the thread read its target stays good until the thread comes to
      wait or to collect. */
  lemma {:induction false} ReadIsGood(run: seq<State>, i: nat, j: nat, t: nat, x: nat)
    requires Run(run) && i <= j < |run| && t < |run[i].pcs| && x < |run[i].targets|
    requires forall k :: i <= k < j ==> t < |run[k].pcs| && AtWork(run[k].pcs[t])
    ensures run[j].freed == run[i].freed && run[i].targets[x] !in run[j].freed
  {
    hide Step, Init, Inv;
    RunInv(run, i);
    InPlace(run[i], x);
    if i != j {
      ReadIsGood(run, i, j - 1, t, x);
      RunInv(run, j - 1);
      assert Next(run[j - 1], run[j]);
      var u: nat :| u < |run[j - 1].pcs| && Step(run[j - 1], u, run[j]);
      NobodyCollects(run[j - 1], t, u);
      Moves(run[j - 1], u, run[j]);
    }
  }

  predicate AtWork(p: Pc) { HoldsMod(p) && !Waits(p) && !p.Collecting? }

  lemma InPlace(s: State, x: nat)
    requires Inv(s) && x < |s.targets|
    ensures s.targets[x] !in s.freed && s.targets[x] !in s.deadBlocks && s.targets[x] < s.made
  {
  }

  lemma NobodyCollects(s: State, t: nat, u: nat)
    requires Inv(s) && t < |s.pcs| && u < |s.pcs| && AtWork(s.pcs[t])
    ensures !s.pcs[u].Collecting?
  {
    if s.pcs[u].Collecting? {
      CollectorIsAlone(s, u, t);
    }
  }

  lemma Moves(s: State, u: nat, s': State)
    requires Inv(s) && u < |s.pcs| && Step(s, u, s')
    ensures u < |s'.pcs| && s'.pcs == s.pcs[u := s'.pcs[u]] && Inv(s')
    ensures !s.pcs[u].Collecting? ==> s'.freed == s.freed
  {
    StepMoves(s, u, s');
    StepKeepsInv(s, u, s');
  }

  // ----- over a call of naGC_swapfree -----

  /** The thread `t` is about to take the lock in naGC_swapfree, and its path goes on
      until it first returns. */
  ghost predicate Returns(path: seq<State>, t: nat) {
    && Path(path) && |path| > 2 && t < |path[0].pcs| && path[0].pcs[t].Wanting? && path[0].pcs[t].why.Swap?
    && Acquire(path[0], t, path[1])
    && (forall k :: 0 < k < |path| ==>
          t < |path[k].pcs| && (path[k].pcs[t].Running? <==> k == |path| - 1))
  }

  /** The guard: whether the block `c`, made before the call or put in place by it,
      can be trusted when the call returns. With room in the buffer the thread does
      not come to wait, and with all others waiting it need not. */
  predicate MayKeep(s: State, x: nat, c: nat)
    requires x < |s.targets|
  {
    || |s.deadBlocks| < s.deadsz
    || c == s.targets[x]
    || (s.waitCount >= s.nThreads - 1 && c !in s.deadBlocks)
  }

  // ----- calls that are safe -----

  /** The call before it has freed anything, with the lock held all the time. */
  ghost predicate Before(s: State, t: nat, q: State) {
    && t < |q.pcs| && q.owner == t && Carries(q.pcs[t]) && q.freed == s.freed && q.deadBlocks == s.deadBlocks
    && q.deadsz == s.deadsz && q.waitCount == s.waitCount && q.nThreads == s.nThreads
    && (q.pcs[t].Testing? || (|s.deadBlocks| >= s.deadsz && !q.pcs[t].Waking?))
  }

  /** The call after it has freed the dead blocks itself. */
  ghost predicate After(s: State, t: nat, q: State) {
    && t < |q.pcs| && q.owner == t && Carries(q.pcs[t]) && q.freed == s.freed + s.deadBlocks && q.deadBlocks == []
    && 0 < q.deadsz && |s.deadBlocks| >= s.deadsz && (q.pcs[t].Testing? || q.pcs[t].Waking?)
  }

  predicate Stays(s: State) { |s.deadBlocks| < s.deadsz || s.waitCount >= s.nThreads - 1 }

  /** Steps of the thread itself: it goes through the call or returns. */
  lemma OwnStep(s: State, t: nat, q: State, q': State)
    requires Stays(s) && (Before(s, t, q) || After(s, t, q)) && Inv(q) && Step(q, t, q')
    ensures t < |q'.pcs| && (Before(s, t, q') || After(s, t, q') || (q'.pcs[t].Running? && q'.freed == q.freed))
  {
    hide Enter, ReadFlag, Make, Pause, Leave, Acquire, SemDown, Reacquire, Threads;
    Where(q, t, q');
  }

  lemma Where(q: State, t: nat, q': State)
    requires Inv(q) && q.owner == t && t < |q.pcs| && Step(q, t, q')
    ensures HoldsLock(q.pcs[t]) && q.deadsz > 0
    ensures Test(q, t, q') || Engage(q, t, q') || Loop(q, t, q') || Collect(q, t, q') || Release(q, t, q')
  {
  }

  /** Steps of another thread, while this one has the lock. */
  lemma OtherStep(q: State, t: nat, u: nat, q': State)
    requires Inv(q) && q.owner == t && t < |q.pcs| && u < |q.pcs| && u != t && Step(q, u, q')
    ensures t < |q'.pcs| && q'.pcs[t] == q.pcs[t] && q'.owner == t && q'.freed == q.freed
    ensures q'.deadBlocks == q.deadBlocks && q'.deadsz == q.deadsz
    ensures q'.waitCount == q.waitCount && q'.nThreads == q.nThreads
  {
    hide Acquire, Test, Engage, Loop, Reacquire, Collect, Release, BlocksOk, CountsOk, AloneOk, TokensOk;
    NeedsLock(q, u, q');
  }

  lemma NeedsLock(q: State, u: nat, q': State)
    requires u < |q.pcs| && LockOk(q) && q.owner != u && q.owner != -1 && Step(q, u, q')
    ensures Enter(q, u, q') || ReadFlag(q, u, q') || Make(q, u, q') || Pause(q, u, q') || SemDown(q, u, q')
    ensures Enter(q, u, q') ==> q.pcs[u].Out?
  {
  }

  /** A call that does not put the thread to sleep frees nothing but what was dead. */
  lemma {:induction false} CallStays(path: seq<State>, t: nat, k: nat)
    requires Returns(path, t) && Inv(path[0]) && Stays(path[0]) && 0 < k < |path|
    ensures k < |path| - 1 ==> Before(path[0], t, path[k]) || After(path[0], t, path[k])
    ensures path[k].freed == path[0].freed
            || (|path[0].deadBlocks| >= path[0].deadsz && path[k].freed == path[0].freed + path[0].deadBlocks)
  {
    hide Inv, Step, Next, Before, After;
    var s := path[0];
    if k == 1 {
      FirstStep(path, t);
    } else {
      CallStays(path, t, k - 1);
      PathInv(path, k - 1);
      var q, q' := path[k - 1], path[k];
      var u := Stepper(path, k - 1);
      if u == t {
        OwnStep(s, t, q, q');
      } else {
        CallOwns(s, t, q);
        OtherStep(q, t, u, q');
        CallGoesOn(s, t, q, q');
      }
      CallFreed(s, t, q);
      CallFreed(s, t, q');
    }
  }

  lemma Stepper(path: seq<State>, k: nat) returns (u: nat)
    requires Path(path) && k < |path| - 1
    ensures u < |path[k].pcs| && Step(path[k], u, path[k + 1])
  {
    hide Step;
    assert Next(path[k], path[k + 1]);
    u :| u < |path[k].pcs| && Step(path[k], u, path[k + 1]);
  }

  lemma FirstStep(path: seq<State>, t: nat)
    requires Returns(path, t)
    ensures Before(path[0], t, path[1]) && path[1].freed == path[0].freed
    ensures path[0].pcs[t].why.x < |path[0].targets|
    ensures InHand(path[1].pcs[t], path[0].targets[path[0].pcs[t].why.x])
  {
  }

  lemma CallOwns(s: State, t: nat, q: State)
    requires Before(s, t, q) || After(s, t, q)
    ensures t < |q.pcs| && q.owner == t && !q.pcs[t].Running?
  {
  }

  lemma CallGoesOn(s: State, t: nat, q: State, q': State)
    requires Before(s, t, q) || After(s, t, q)
    requires t < |q'.pcs| && q'.pcs[t] == q.pcs[t] && q'.owner == t && q'.freed == q.freed
    requires q'.deadBlocks == q.deadBlocks && q'.deadsz == q.deadsz
    requires q'.waitCount == q.waitCount && q'.nThreads == q.nThreads
    ensures Before(s, t, q') || After(s, t, q')
  {
  }

  lemma CallFreed(s: State, t: nat, q: State)
    ensures Before(s, t, q) ==> q.freed == s.freed
    ensures After(s, t, q) ==> q.freed == s.freed + s.deadBlocks && |s.deadBlocks| >= s.deadsz
  {
  }

  /** The replaced block stays in the thread's hand until it returns. */
  lemma {:induction false} CallCarries(path: seq<State>, t: nat, k: nat)
    requires Returns(path, t) && Inv(path[0]) && 0 < k < |path|
    ensures path[0].pcs[t].why.x < |path[0].targets| && path[0].targets[path[0].pcs[t].why.x] !in path[k].freed
    ensures k < |path| - 1 ==> InHand(path[k].pcs[t], path[0].targets[path[0].pcs[t].why.x])
  {
    hide Inv, Step, Next, InHand;
    FirstStep(path, t);
    var x := path[0].pcs[t].why.x;
    var c := path[0].targets[x];
    if k == 1 {
      InPlace(path[0], x);
    } else {
      CallCarries(path, t, k - 1);
      PathInv(path, k - 1);
      PathInv(path, k);
      var u := Stepper(path, k - 1);
      HandStays(path[k - 1], t, u, path[k], c);
    }
  }

  lemma HandStays(q: State, t: nat, u: nat, q': State, c: nat)
    requires Inv(q) && Inv(q') && t < |q.pcs| && u < |q.pcs| && InHand(q.pcs[t], c) && Step(q, u, q')
    ensures t < |q'.pcs| && c !in q'.freed && (q'.pcs[t].Running? || InHand(q'.pcs[t], c))
  {
    hide Step, Inv, InHand;
    HandIsUnfreed(q, t, c);
    Moves(q, u, q');
    if u == t {
      OwnHand(q, t, q', c);
    }
    if t < |q'.pcs| && InHand(q'.pcs[t], c) {
      HandIsUnfreed(q', t, c);
    }
  }

  lemma HandIsUnfreed(q: State, t: nat, c: nat)
    requires Inv(q) && t < |q.pcs| && InHand(q.pcs[t], c)
    ensures c !in q.freed
  {
    hide Threads, WhysOk;
  }

  lemma OwnHand(q: State, t: nat, q': State, c: nat)
    requires t < |q.pcs| && InHand(q.pcs[t], c) && Step(q, t, q')
    ensures t < |q'.pcs|
    ensures InHand(q'.pcs[t], c) || (q'.pcs[t].Running? && q'.freed == q.freed)
  {
    hide Enter, ReadFlag, Make, Pause, Leave, Acquire;
    InCall(q, t, q');
  }

  lemma InCall(q: State, t: nat, q': State)
    requires t < |q.pcs| && Carries(q.pcs[t]) && Step(q, t, q')
    ensures || Test(q, t, q') || Engage(q, t, q') || Loop(q, t, q') || SemDown(q, t, q') || Reacquire(q, t, q')
            || Collect(q, t, q') || Release(q, t, q')
  {
  }

  /** A call for which the guard holds leaves the block alone, whatever the other
      threads do meanwhile. */
  lemma GuardedIsKept(path: seq<State>, t: nat, x: nat, c: nat)
    requires Returns(path, t) && Inv(path[0]) && path[0].pcs[t].why == Swap(x) && x < |path[0].targets|
    requires c !in path[0].freed && MayKeep(path[0], x, c)
    ensures c !in path[|path| - 1].freed
  {
    hide Path, Inv;
    if c == path[0].targets[x] {
      CallCarries(path, t, |path| - 1);
    } else {
      CallStays(path, t, |path| - 1);
    }
  }
}
