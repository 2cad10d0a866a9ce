/** What the collector's thread protocol guarantees in every run: exclusion, no lost wakeup,
    deferred reclamation, and progress. */
module Bottleneck {
  import opened Basics
  import opened Protocol

  lemma {:induction false} PathInv(path: seq<State>, i: nat)
    requires Path(path) && Inv(path[0]) && i < |path|
    ensures Inv(path[i])
  {
    hide Step, Inv;
    if i != 0 {
      PathInv(path, i - 1);
      assert Next(path[i - 1], path[i]);
      var t: nat :| t < |path[i - 1].pcs| && Step(path[i - 1], t, path[i]);
      StepKeepsInv(path[i - 1], t, path[i]);
    }
  }

  lemma RunInv(run: seq<State>, i: nat)
    requires Run(run) && i < |run|
    ensures Inv(run[i])
  {
    hide Init, Next, Inv;
    InitInv(run[0]);
    PathInv(run, i);
  }

  /** Exclusion: in every run of any number of threads, while one frees blocks or
      collects garbage, every other mod-lock holder is parked between counting
      itself as a waiter and taking itself off again, and the lock it needs for
      that is held. */
  lemma Exclusion(run: seq<State>, i: nat, t: nat, u: nat)
    requires Run(run) && i < |run| && t < |run[i].pcs| && u < |run[i].pcs| && t != u
    requires run[i].pcs[t].Collecting?
    ensures HoldsMod(run[i].pcs[u]) ==> Waits(run[i].pcs[u])
    ensures run[i].owner == t
    ensures forall s' :: Step(run[i], u, s') ==> !HoldsMod(run[i].pcs[u]) || Waits(s'.pcs[u])
  {
    hide Init, Next;
    RunInv(run, i);
    CollectorIsAlone(run[i], t, u);
  }

  /** No wakeup is lost: while the bottleneck is off there is a token for every
      sleeper, and the holders are never all asleep without a token or a thread
      already woken. */
  lemma NoLostWakeup(run: seq<State>, i: nat)
    requires Run(run) && i < |run|
    ensures !run[i].bottleneck ==> run[i].sem >= Count(run[i].pcs, Sleeps)
    ensures Count(run[i].pcs, HoldsMod) > 0 && Count(run[i].pcs, Sleeps) == Count(run[i].pcs, HoldsMod) ==>
              run[i].sem > 0
  {
    hide Init, Next, Count;
    RunInv(run, i);
    CountSum(run[i].pcs);
    CountBelow(run[i].pcs, Waits, HoldsMod);
  }

  // ----- blocks -----

  /** What one step does to the blocks: a block out of place stays so, a dead one
      stays dead until it is freed, and the freed ones stay freed. */
  lemma StepAges(s: State, t: nat, s': State)
    requires t < |s.pcs| && Step(s, t, s')
    ensures s.made <= s'.made && s.freed <= s'.freed && |s'.pcs| == |s.pcs|
    ensures forall b: nat :: b < s.made && b !in s.targets ==> b !in s'.targets
    ensures forall b: nat :: b in s.deadBlocks ==> b in s'.deadBlocks || b in s'.freed
  {
    hide Enter, ReadFlag, Pause, Leave, Engage, Loop, SemDown, Reacquire, Release, Acquire, Test, Collect;
    if Acquire(s, t, s') {
      AcquireAges(s, t, s');
    } else if Test(s, t, s') {
      TestAges(s, t, s');
    } else if Collect(s, t, s') {
      CollectAges(s, t, s');
    } else if !Make(s, t, s') {
      QuietAges(s, t, s');
    }
  }

  lemma AcquireAges(s: State, t: nat, s': State)
    requires t < |s.pcs| && Acquire(s, t, s')
    ensures s.made <= s'.made && s.freed == s'.freed && |s'.pcs| == |s.pcs| && s'.deadBlocks == s.deadBlocks
    ensures forall b: nat :: b < s.made && b !in s.targets ==> b !in s'.targets
  {
  }

  lemma TestAges(s: State, t: nat, s': State)
    requires t < |s.pcs| && Test(s, t, s')
    ensures s.made == s'.made && s.freed == s'.freed && |s'.pcs| == |s.pcs| && s'.targets == s.targets
    ensures s.deadBlocks <= s'.deadBlocks
  {
  }

  lemma CollectAges(s: State, t: nat, s': State)
    requires t < |s.pcs| && Collect(s, t, s')
    ensures s.made == s'.made && s'.freed == s.freed + s.deadBlocks && |s'.pcs| == |s.pcs| && s'.targets == s.targets
  {
  }

  lemma QuietAges(s: State, t: nat, s': State)
    requires t < |s.pcs|
    requires || Enter(s, t, s') || ReadFlag(s, t, s') || Pause(s, t, s') || Leave(s, t, s')
             || Engage(s, t, s') || Loop(s, t, s') || SemDown(s, t, s') || Reacquire(s, t, s') || Release(s, t, s')
    ensures s.made == s'.made && s.freed == s'.freed && |s'.pcs| == |s.pcs| && s'.targets == s.targets
    ensures s'.deadBlocks == s.deadBlocks
  {
  }

  /** The way of a block along any path: once out of its target it is never put in
      place again, so it is replaced at most once; once dead it stays so until it
      is freed; and what is freed stays freed, in order. */
  lemma {:induction false} BlockAges(path: seq<State>, i: nat, j: nat, b: nat)
    requires Path(path) && i <= j < |path| && b < path[i].made
    ensures b < path[j].made && |path[j].pcs| == |path[i].pcs|
    ensures b !in path[i].targets ==> b !in path[j].targets
    ensures b in path[i].deadBlocks ==> b in path[j].deadBlocks || b in path[j].freed
    ensures path[i].freed <= path[j].freed
  {
    hide Step;
    if i != j {
      BlockAges(path, i, j - 1, b);
      assert Next(path[j - 1], path[j]);
      var t: nat :| t < |path[j - 1].pcs| && Step(path[j - 1], t, path[j]);
      StepAges(path[j - 1], t, path[j]);
    }
  }

  /** Deferred reclamation: in every run each block is in exactly one place, no
      block is freed twice, the buffer never overflows, and what is in place in a
      target is neither dead nor freed. */
  lemma FreedOnce(run: seq<State>, i: nat)
    requires Run(run) && i < |run|
    ensures Distinct(run[i].freed) && |run[i].deadBlocks| <= run[i].deadsz
    ensures forall b :: b in run[i].freed ==> b !in run[i].targets && b !in run[i].deadBlocks && !Held(run[i], b)
    ensures forall b :: b in run[i].deadBlocks ==> b !in run[i].targets && !Held(run[i], b)
    ensures forall b: nat :: b < run[i].made ==> Placed(run[i], b)
  {
    hide Init, Next, Threads, WhysOk;
    RunInv(run, i);
    var d, f := run[i].deadBlocks, run[i].freed;
    forall j, k | 0 <= j < k < |f|
      ensures f[j] != f[k]
    {
      assert (d + f)[|d| + j] == f[j] && (d + f)[|d| + k] == f[k];
    }
    forall b | b in f
      ensures b !in d
    {
      var k :| 0 <= k < |f| && f[k] == b;
      assert (d + f)[|d| + k] == b;
      forall j | 0 <= j < |d|
        ensures d[j] != b
      {
        assert (d + f)[j] == d[j];
      }
    }
  }

  // ----- progress -----

  /** A thread that is not asleep, and not kept out by a lock that another holds,
      can go on by itself. */
  lemma CanGoOn(s: State, t: nat) returns (s': State)
    requires t < |s.pcs| && WhyOk(s.pcs[t], |s.targets|) && !s.pcs[t].Sleeping?
    requires HoldsLock(s.pcs[t]) || s.owner == -1
    ensures Step(s, t, s')
  {
    if s.pcs[t].Wanting? {
      s' := CanAcquire(s, t);
    } else if HoldsLock(s.pcs[t]) {
      s' := CanWork(s, t);
    } else {
      match s.pcs[t]
      case Out => s' := Move(s, t, Entering); assert Enter(s, t, s');
      case Entering => s' := Move(s, t, Checking).(nThreads := s.nThreads + 1); assert Enter(s, t, s');
      case Checking => s' := Move(s, t, if s.bottleneck then Wanting(Check) else Running); assert ReadFlag(s, t,
          s');
      case Running => s' := Move(s, t, Checking); assert Pause(s, t, s');
      case Leaving =>
        s' := Move(s, t, Out).(nThreads := s.nThreads - 1,
                               sem := if s.waitCount == s.nThreads - 1 then s.sem + 1 else s.sem);
        assert Leave(s, t, s');
      case Woken(why) =>
        s' := Move(s, t, Looping(why)).(owner := t, waitCount := s.waitCount - 1);
        assert Reacquire(s, t, s');
    }
  }

  lemma CanAcquire(s: State, t: nat) returns (s': State)
    requires t < |s.pcs| && WhyOk(s.pcs[t], |s.targets|) && s.pcs[t].Wanting? && s.owner == -1
    ensures Step(s, t, s')
  {
    match s.pcs[t].why
    case Check => s' := Move(s, t, Engaging(Check)).(owner := t);
    case Get => s' := Move(s, t, Testing(Get)).(owner := t);
    case Swap(x) => s' := Swapped(s, t, x);
    assert Acquire(s, t, s');
  }

  /** The holder of the lock is never blocked. */
  lemma CanWork(s: State, t: nat) returns (s': State)
    requires t < |s.pcs| && WhyOk(s.pcs[t], |s.targets|) && HoldsLock(s.pcs[t])
    ensures Step(s, t, s')
  {
    var why := s.pcs[t].why;
    match s.pcs[t]
    case Testing(_) =>
      if why == Get {
        s' := Move(s, t, Running).(owner := -1);
      } else if why == Check {
        s' := Move(s, t, Running).(owner := -1);
      } else if |s.deadBlocks| >= s.deadsz {
        s' := Move(s, t, Engaging(why));
      } else {
        s' := Move(s, t, Running).(owner := -1, deadBlocks := s.deadBlocks + [why.b]);
      }
      assert Test(s, t, s');
    case Engaging(_) => s' := Move(s, t, Looping(why)).(bottleneck := true); assert Engage(s, t, s');
    case Looping(_) =>
      if s.bottleneck && s.waitCount < s.nThreads - 1 {
        s' := Move(s, t, Sleeping(why)).(owner := -1, waitCount := s.waitCount + 1);
      } else if s.waitCount >= s.nThreads - 1 {
        s' := Move(s, t, Collecting(why));
      } else {
        s' := Move(s, t, Testing(why));
      }
      assert Loop(s, t, s');
    case Collecting(_) =>
      s' := Move(s, t, Waking(why)).(freed := s.freed + s.deadBlocks, deadBlocks := [], needGC := false,
                                     sem := s.sem + s.waitCount);
      assert Collect(s, t, s');
    case Waking(_) => s' := Move(s, t, Testing(why)).(bottleneck := false); assert Release(s, t, s');
  }

  lemma Somewhere(pcs: seq<Pc>, q: Pc -> bool) returns (t: nat)
    requires Count(pcs, q) > 0
    ensures t < |pcs| && q(pcs[t])
  {
    CountNone(pcs, q);
    t :| t < |pcs| && q(pcs[t]);
  }

  /** No deadlock: as long as some thread is inside the protocol, some thread
      inside it can take a step. */
  lemma NoDeadlock(run: seq<State>, i: nat, u: nat) returns (t: nat, s': State)
    requires Run(run) && i < |run| && u < |run[i].pcs| && !run[i].pcs[u].Out?
    ensures t < |run[i].pcs| && !run[i].pcs[t].Out? && Step(run[i], t, s')
  {
    hide Init, Next, Step, Count, AloneOk, BlocksOk;
    RunInv(run, i);
    var s := run[i];
    if s.owner != -1 {
      t := Owner(s);
      s' := CanWork(s, t);
    } else if !s.pcs[u].Sleeping? {
      t := u;
      s' := CanGoOn(s, u);
    } else if s.sem > 0 {
      t := u;
      s' := Move(s, u, Woken(s.pcs[u].why)).(sem := s.sem - 1);
      Sleeper(s, u, s');
    } else {
      t := Awake(s, u);
      s' := CanGoOn(s, t);
    }
  }

  lemma Sleeper(s: State, u: nat, s': State)
    requires u < |s.pcs| && s.pcs[u].Sleeping? && s.sem > 0
    requires s' == Move(s, u, Woken(s.pcs[u].why)).(sem := s.sem - 1)
    ensures Step(s, u, s')
  {
    assert SemDown(s, u, s');
  }

  /** With no token left, some holder is not asleep. */
  lemma Awake(s: State, u: nat) returns (t: nat)
    requires CountsOk(s) && TokensOk(s) && u < |s.pcs| && s.pcs[u].Sleeping? && s.sem == 0
    ensures t < |s.pcs| && HoldsMod(s.pcs[t]) && !s.pcs[t].Sleeping?
  {
    CountNone(s.pcs, HoldsMod);
    CountSum(s.pcs);
    if Count(s.pcs, IsWoken) > 0 {
      t := Somewhere(s.pcs, IsWoken);
    } else {
      t := Extra(s.pcs, Waits, HoldsMod);
    }
  }

  lemma {:induction false} Extra(pcs: seq<Pc>, q: Pc -> bool, r: Pc -> bool) returns (t: nat)
    requires (forall p :: q(p) ==> r(p)) && Count(pcs, q) != Count(pcs, r)
    ensures t < |pcs| && r(pcs[t]) && !q(pcs[t])
  {
    if r(pcs[0]) && !q(pcs[0]) {
      t := 0;
    } else {
      var k := Extra(pcs[1..], q, r);
      t := k + 1;
    }
  }

  /** Only a thread of the protocol can hold the lock. */
  lemma Owner(s: State) returns (t: nat)
    requires OwnerOk(s) && LockOk(s) && s.owner != -1
    ensures t < |s.pcs| && HoldsLock(s.pcs[t])
  {
    t := s.owner;
  }

  /** A bottleneck whose participants have all gone to sleep resolves itself: three
      steps of one of them lead to a collection. */
  lemma AllAsleepResolves(run: seq<State>, i: nat) returns (t: nat, tail: seq<State>)
    requires Run(run) && i < |run| && run[i].owner == -1
    requires Count(run[i].pcs, Waits) == Count(run[i].pcs, HoldsMod) > 0
    ensures 1 <= |tail| <= 3 && Next(run[i], tail[0])
    ensures forall k :: 0 <= k < |tail| - 1 ==> Next(tail[k], tail[k + 1])
    ensures var last := tail[|tail| - 1]; t < |last.pcs| && last.pcs[t].Collecting?
  {
    hide Init, Next, Step, Count;
    RunInv(run, i);
    var s := run[i];
    CountSum(s.pcs);
    if Count(s.pcs, IsWoken) > 0 {
      t := Somewhere(s.pcs, IsWoken);
      tail := WokenCollects(s, t);
    } else {
      t := Somewhere(s.pcs, Sleeps);
      var s1 := Move(s, t, Woken(s.pcs[t].why)).(sem := s.sem - 1);
      Sleeper(s, t, s1);
      NextBy(s, t, s1);
      var rest := WokenCollects(s1, t);
      tail := [s1] + rest;
    }
  }

  lemma NextBy(s: State, t: nat, s': State)
    requires t < |s.pcs| && Step(s, t, s')
    ensures Next(s, s')
  {
    hide Step;
  }

  lemma WokenCollects(s: State, t: nat) returns (tail: seq<State>)
    requires t < |s.pcs| && s.pcs[t].Woken? && s.owner == -1 && s.waitCount == s.nThreads
    ensures |tail| == 2 && Next(s, tail[0]) && Next(tail[0], tail[1])
    ensures t < |tail[1].pcs| && tail[1].pcs[t].Collecting?
  {
    hide Next;
    var s1 := Move(s, t, Looping(s.pcs[t].why)).(owner := t, waitCount := s.waitCount - 1);
    assert Reacquire(s, t, s1);
    NextBy(s, t, s1);
    var s2 := Move(s1, t, Collecting(s.pcs[t].why));
    assert Loop(s1, t, s2);
    NextBy(s1, t, s2);
    tail := [s1, s2];
  }
}
