/** What can happen to a kept pointer when the guard fails: whenever the call puts
    the thread to sleep, the others can go on so that the block is freed before it
    returns. Together with `Keeping` this gives the exact condition. */
module Losing {
  import opened Protocol
  import opened Bottleneck
  import opened Keeping

  // ----- ways -----

  /** A way from one state to another on which the thread `t` does not move. */
  ghost predicate Way(path: seq<State>, s: State, t: nat, s': State) {
    && |path| > 0 && Path(path) && path[0] == s && path[|path| - 1] == s' && t < |s.pcs|
    && forall k :: 0 <= k < |path| ==> t < |path[k].pcs| && path[k].pcs[t] == s.pcs[t]
  }

  ghost predicate Reaches(s: State, t: nat, s': State) { exists path :: Way(path, s, t, s') }

  lemma Here(s: State, t: nat)
    requires t < |s.pcs|
    ensures Reaches(s, t, s)
  {
    assert Way([s], s, t, s);
  }

  /** One more step, by another thread. */
  lemma Go(s0: State, s: State, t: nat, u: nat, s': State)
    requires Reaches(s0, t, s) && Inv(s) && t < |s.pcs| && u < |s.pcs| && u != t && Step(s, u, s')
    ensures Reaches(s0, t, s') && Inv(s') && u < |s'.pcs| && s'.pcs == s.pcs[u := s'.pcs[u]]
  {
    hide Step, Inv, Path;
    Moves(s, u, s');
    var path: seq<State> :| Way(path, s0, t, s);
    assert Next(s, s');
    Longer(path, s');
    assert path[|path| - 1].pcs[t] == s0.pcs[t];
    assert forall k :: 0 <= k < |path| ==> (path + [s'])[k] == path[k];
    assert Way(path + [s'], s0, t, s');
  }

  lemma Longer(path: seq<State>, s': State)
    requires Path(path) && Next(path[|path| - 1], s')
    ensures Path(path + [s'])
  {
    hide Next;
  }

  lemma Joined(p: seq<State>, q: seq<State>)
    requires Path(p) && Path(q) && p[|p| - 1] == q[0]
    ensures Path(p + q[1..])
  {
    hide Next;
  }

  // ----- who is awake -----

  /** Every holder but `u` waits. */
  ghost predicate OthersWait(s: State, u: nat) {
    forall v :: 0 <= v < |s.pcs| && v != u && HoldsMod(s.pcs[v]) ==> Waits(s.pcs[v])
  }

  lemma {:induction false} CountClose(pcs: seq<Pc>, q: Pc -> bool, r: Pc -> bool, u: nat)
    requires forall v :: 0 <= v < |pcs| && v != u && r(pcs[v]) ==> q(pcs[v])
    ensures Count(pcs, r) <= Count(pcs, q) + 1
    ensures u >= |pcs| ==> Count(pcs, r) <= Count(pcs, q)
  {
    if pcs != [] {
      assert forall v :: 0 <= v < |pcs| - 1 ==> pcs[1..][v] == pcs[v + 1];
      CountClose(pcs[1..], q, r, if u == 0 then |pcs| else u - 1);
    }
  }

  lemma OneIsAwake(s: State, u: nat)
    requires CountsOk(s) && OthersWait(s, u)
    ensures s.waitCount >= s.nThreads - 1
  {
    CountClose(s.pcs, Waits, HoldsMod, u);
  }

  lemma TwoAreAwake(s: State, u: nat, v: nat)
    requires CountsOk(s) && u < |s.pcs| && v < |s.pcs| && u != v
    requires HoldsMod(s.pcs[u]) && !Waits(s.pcs[u]) && HoldsMod(s.pcs[v]) && !Waits(s.pcs[v])
    ensures s.waitCount < s.nThreads - 1
  {
    CountGap(s.pcs, Waits, HoldsMod, if u < v then u else v, if u < v then v else u);
  }

  // ----- alone -----

  /** The keeper `t` sleeps, `u` is awake, and the lock is free. */
  ghost predicate Poised(s: State, t: nat, u: nat) {
    && Inv(s) && t < |s.pcs| && u < |s.pcs| && t != u && s.pcs[t].Sleeping? && s.owner == -1
    && HoldsMod(s.pcs[u]) && !Waits(s.pcs[u])
  }

  /** And nobody else is awake, and `u` is at its own work. */
  ghost predicate Alone(s: State, t: nat, u: nat) { Poised(s, t, u) && OthersWait(s, u) && s.pcs[u].Running? }

  /** A call of bottleneck() by a thread that is alone. */
  lemma Frees(s0: State, s: State, t: nat, u: nat) returns (s': State)
    requires Reaches(s0, t, s) && Inv(s) && t < |s.pcs| && u < |s.pcs| && t != u
    requires s.pcs[u].Engaging? && OthersWait(s, u)
    ensures Reaches(s0, t, s') && Inv(s')
    ensures s' == Move(s, u, Testing(s.pcs[u].why)).(
                    bottleneck := false, needGC := false, freed := s.freed + s.deadBlocks, deadBlocks := [],
                    sem := s'.sem)
  {
    hide Inv, Reaches;
    var why := s.pcs[u].why;
    Counts(s);
    OneIsAwake(s, u);
    var s1 := Move(s, u, Looping(why)).(bottleneck := true);
    assert Engage(s, u, s1);
    Go(s0, s, t, u, s1);
    var s2 := Move(s1, u, Collecting(why));
    assert Loop(s1, u, s2);
    Go(s0, s1, t, u, s2);
    var s3 := Move(s2, u, Waking(why)).(freed := s.freed + s.deadBlocks, deadBlocks := [], needGC := false,
                                        sem := s.sem + s.waitCount);
    assert Collect(s2, u, s3);
    Go(s0, s2, t, u, s3);
    s' := Move(s3, u, Testing(why)).(bottleneck := false);
    assert Release(s3, u, s');
    Go(s0, s3, t, u, s');
    assert s'.pcs == s.pcs[u := Testing(why)];
  }

  lemma Counts(s: State)
    requires Inv(s)
    ensures CountsOk(s) && LockOk(s) && BlocksOk(s) && TokensOk(s)
  {
  }

  /** A collection by a thread that is alone and asks for objects. */
  lemma Collected(s0: State, s: State, t: nat, u: nat) returns (s': State)
    requires Reaches(s0, t, s) && Alone(s, t, u)
    ensures Reaches(s0, t, s') && Alone(s', t, u) && s'.pcs == s.pcs && !s'.bottleneck
    ensures s'.targets == s.targets && s'.made == s.made && s'.freed == s.freed + s.deadBlocks && s'.deadBlocks == []
  {
    hide Inv, Reaches;
    var s1 := Move(s, u, Wanting(Get));
    assert Pause(s, u, s1);
    Go(s0, s, t, u, s1);
    var s2 := Move(s1, u, Testing(Get)).(owner := u);
    assert Acquire(s1, u, s2);
    Go(s0, s1, t, u, s2);
    var s3 := Move(s2, u, Engaging(Get)).(needGC := true);
    assert Test(s2, u, s3);
    Go(s0, s2, t, u, s3);
    var s4 := Frees(s0, s3, t, u);
    s' := Move(s4, u, Running).(owner := -1);
    assert Test(s4, u, s');
    Go(s0, s4, t, u, s');
    assert s'.pcs == s.pcs;
  }

  /** A swap by a thread that is alone, with room in the buffer. */
  lemma SwapsAlone(s0: State, s: State, t: nat, u: nat, y: nat) returns (s': State)
    requires Reaches(s0, t, s) && Alone(s, t, u) && y < |s.targets| && |s.deadBlocks| < s.deadsz
    ensures Reaches(s0, t, s') && Alone(s', t, u) && s'.deadBlocks == s.deadBlocks + [s.targets[y]]
    ensures s'.bottleneck == s.bottleneck
  {
    hide Inv, Reaches;
    var s1 := Move(s, u, Wanting(Swap(y)));
    assert Pause(s, u, s1);
    Go(s0, s, t, u, s1);
    var s2 := Swapped(s1, u, y);
    assert Acquire(s1, u, s2);
    Go(s0, s1, t, u, s2);
    s' := Move(s2, u, Running).(owner := -1, deadBlocks := s2.deadBlocks + [s.targets[y]]);
    assert Test(s2, u, s');
    Go(s0, s2, t, u, s');
    assert s'.pcs == s.pcs;
  }

  /** A waiter that carries a block is let go on: it hands the block over and leaves. */
  lemma HandsOver(s0: State, s: State, t: nat, u: nat, v: nat) returns (s': State)
    requires Reaches(s0, t, s) && Alone(s, t, u) && !s.bottleneck && |s.deadBlocks| < s.deadsz
    requires v < |s.pcs| && v != t && Waits(s.pcs[v]) && Carries(s.pcs[v])
    ensures Reaches(s0, t, s') && Alone(s', t, u) && s'.deadBlocks == s.deadBlocks + [s.pcs[v].why.b]
  {
    hide Inv, Reaches, Count;
    var why := s.pcs[v].why;
    var s1 := Wakes(s0, s, t, v);
    var s2 := Move(s1, v, Looping(why)).(owner := v, waitCount := s1.waitCount - 1);
    assert Reacquire(s1, v, s2);
    Go(s0, s1, t, v, s2);
    Counts(s2);
    TwoAreAwake(s2, u, v);
    var s3 := Move(s2, v, Testing(why));
    assert Loop(s2, v, s3);
    Go(s0, s2, t, v, s3);
    var s4 := Move(s3, v, Running).(owner := -1, deadBlocks := s3.deadBlocks + [why.b]);
    assert Test(s3, v, s4);
    Go(s0, s3, t, v, s4);
    s' := Leaves(s0, s4, t, v);
  }

  lemma Wakes(s0: State, s: State, t: nat, v: nat) returns (s': State)
    requires Reaches(s0, t, s) && Inv(s) && !s.bottleneck && t < |s.pcs| && v < |s.pcs| && v != t && Waits(s.pcs[v])
    ensures Reaches(s0, t, s') && Inv(s') && s' == Move(s, v, Woken(s.pcs[v].why)).(sem := s'.sem)
  {
    hide Inv, Reaches, Count;
    if s.pcs[v].Woken? {
      s' := s;
    } else {
      TokenForSleeper(s, v);
      s' := Move(s, v, Woken(s.pcs[v].why)).(sem := s.sem - 1);
      assert SemDown(s, v, s');
      Go(s0, s, t, v, s');
    }
  }

  lemma TokenForSleeper(s: State, v: nat)
    requires Inv(s) && !s.bottleneck && v < |s.pcs| && s.pcs[v].Sleeping?
    ensures s.sem > 0
  {
    CountNone(s.pcs, Sleeps);
  }

  /** A thread at its own work gives up the mod lock. */
  lemma Leaves(s0: State, s: State, t: nat, v: nat) returns (s': State)
    requires Reaches(s0, t, s) && Inv(s) && s.owner == -1 && t < |s.pcs| && v < |s.pcs| && v != t
    requires s.pcs[v].Running? || s.pcs[v].Leaving?
    ensures Reaches(s0, t, s') && Inv(s') && s' == Move(s, v, Out).(nThreads := s.nThreads - 1, sem := s'.sem)
  {
    hide Inv, Reaches;
    var s1 := Move(s, v, Leaving);
    if s.pcs[v].Running? {
      assert Pause(s, v, s1);
      Go(s0, s, t, v, s1);
    } else {
      assert s1 == s;
    }
    var n := s1.nThreads - 1;
    s' := Move(s1, v, Out).(nThreads := n, sem := if s1.waitCount == n then s1.sem + 1 else s1.sem);
    assert Leave(s1, v, s');
    Go(s0, s1, t, v, s');
    assert s'.pcs == s.pcs[v := Out];
  }

  /** A thread that is alone gets any block freed, unless the keeper carries it. */
  lemma GetsFreed(s0: State, s: State, t: nat, u: nat, c: nat) returns (s': State)
    requires Reaches(s0, t, s) && Alone(s, t, u) && c < s.made && !InHand(s.pcs[t], c)
    ensures Reaches(s0, t, s') && Alone(s', t, u) && c in s'.freed && !s'.bottleneck && s'.deadBlocks == []
  {
    hide Inv, Reaches, Carries;
    var s1 := Collected(s0, s, t, u);
    Counts(s1);
    assert Placed(s1, c);
    if c in s1.freed {
      s' := s1;
    } else if c in s1.targets {
      var y :| 0 <= y < |s1.targets| && s1.targets[y] == c;
      var s2 := SwapsAlone(s0, s1, t, u, y);
      assert s2.deadBlocks[|s1.deadBlocks|] == c;
      s' := Collected(s0, s2, t, u);
    } else {
      var v :| 0 <= v < |s1.pcs| && InHand(s1.pcs[v], c);
      HandWaits(s1, u, v);
      var s2 := HandsOver(s0, s1, t, u, v);
      assert s2.deadBlocks[|s1.deadBlocks|] == c;
      s' := Collected(s0, s2, t, u);
    }
  }

  lemma HandWaits(s: State, u: nat, v: nat)
    requires u < |s.pcs| && v < |s.pcs| && s.pcs[u].Running? && OthersWait(s, u) && Carries(s.pcs[v])
    ensures v != u && Waits(s.pcs[v])
  {
  }

  // ----- getting there -----

  /** Into the lock for a call: a thread that wants to call is at the loop around
      bottleneck(), or past it if it only saw the flag. */
  lemma Calls(s0: State, s: State, t: nat, u: nat) returns (s': State)
    requires Reaches(s0, t, s) && Inv(s) && s.owner == -1 && t < |s.pcs| && u < |s.pcs| && u != t && s.pcs[u].Wanting?
    ensures Reaches(s0, t, s') && Inv(s') && |s'.pcs| == |s.pcs| && s'.pcs == s.pcs[u := s'.pcs[u]] && s.made <= s'.made
    ensures s'.owner == u && (s'.pcs[u].Testing? || s'.pcs[u].Engaging?) && !s'.pcs[u].why.Swap?
    ensures s'.pcs[u].Testing? ==> !s'.pcs[u].why.Check?
  {
    hide Inv, Reaches;
    Whys(s, u);
    match s.pcs[u].why
    case Check =>
      s' := Move(s, u, Engaging(Check)).(owner := u);
      assert Acquire(s, u, s');
      Go(s0, s, t, u, s');
    case Get =>
      s' := Move(s, u, Testing(Get)).(owner := u);
      assert Acquire(s, u, s');
      Go(s0, s, t, u, s');
    case Swap(x) =>
      s' := Swapped(s, u, x);
      assert Acquire(s, u, s');
      Go(s0, s, t, u, s');
  }

  lemma Whys(s: State, u: nat)
    requires Inv(s) && u < |s.pcs|
    ensures WhyOk(s.pcs[u], |s.targets|)
  {
  }

  /** Out of the loop around bottleneck(), when there is room. */
  lemma Ends(s0: State, s: State, t: nat, u: nat) returns (s': State)
    requires Reaches(s0, t, s) && Inv(s) && t < |s.pcs| && u < |s.pcs| && u != t && s.pcs[u].Testing?
    requires !s.pcs[u].why.Swap? && (s.pcs[u].why.Retire? ==> |s.deadBlocks| < s.deadsz)
    ensures Reaches(s0, t, s') && Inv(s') && s'.pcs == s.pcs[u := Running] && s'.owner == -1 && s.made == s'.made
  {
    hide Inv, Reaches;
    s' := Move(s, u, Running).(owner := -1,
                               deadBlocks := s.deadBlocks + if s.pcs[u].why.Retire? then [s.pcs[u].why.b] else []);
    assert Test(s, u, s');
    Go(s0, s, t, u, s');
  }

  /** A caller that is not alone goes to sleep. */
  lemma FallsAsleep(s0: State, s: State, t: nat, u: nat, v: nat) returns (s': State)
    requires Reaches(s0, t, s) && Inv(s) && t < |s.pcs| && u < |s.pcs| && v < |s.pcs| && t != v && u != v
    requires HoldsMod(s.pcs[u]) && !Waits(s.pcs[u]) && s.pcs[v].Engaging?
    ensures Reaches(s0, t, s') && Inv(s') && s'.pcs == s.pcs[v := Sleeping(s.pcs[v].why)] && s'.owner == -1
    ensures s'.made == s.made
  {
    hide Inv, Reaches;
    var why := s.pcs[v].why;
    Counts(s);
    TwoAreAwake(s, u, v);
    var s1 := Move(s, v, Looping(why)).(bottleneck := true);
    assert Engage(s, v, s1);
    Go(s0, s, t, v, s1);
    s' := Move(s1, v, Sleeping(why)).(owner := -1, waitCount := s.waitCount + 1);
    assert Loop(s1, v, s');
    Go(s0, s1, t, v, s');
    assert s'.pcs == s.pcs[v := Sleeping(why)];
  }

  /** With the lock free, a thread that has passed the check, or seen the flag. */
  lemma Checks(s0: State, s: State, t: nat, u: nat) returns (s': State)
    requires Reaches(s0, t, s) && Inv(s) && t < |s.pcs| && u < |s.pcs| && u != t && s.pcs[u].Checking?
    ensures Reaches(s0, t, s') && Inv(s') && u < |s'.pcs| && s'.pcs == s.pcs[u := s'.pcs[u]]
    ensures s'.owner == s.owner && s'.made == s.made
    ensures s'.pcs[u].Running? || s'.pcs[u].Wanting?
  {
    hide Inv, Reaches;
    s' := Move(s, u, if s.bottleneck then Wanting(Check) else Running);
    assert ReadFlag(s, u, s');
    Go(s0, s, t, u, s');
  }

  /** Any awake thread but one can be brought to wait or to leave. */
  lemma StepsBack(s0: State, s: State, t: nat, u: nat, v: nat) returns (s': State)
    requires Reaches(s0, t, s) && Poised(s, t, u) && v < |s.pcs| && v != t && v != u
    requires HoldsMod(s.pcs[v]) && !Waits(s.pcs[v])
    ensures Reaches(s0, t, s') && Poised(s', t, u) && s.made <= s'.made
    ensures v < |s'.pcs| && s'.pcs == s.pcs[v := s'.pcs[v]]
    ensures !HoldsMod(s'.pcs[v]) || Waits(s'.pcs[v])
  {
    hide Inv, Reaches;
    Counts(s);
    if s.pcs[v].Running? || s.pcs[v].Leaving? {
      s' := Leaves(s0, s, t, v);
    } else if s.pcs[v].Checking? {
      var s1 := Checks(s0, s, t, v);
      s' := StepsBackFrom(s0, s1, t, u, v);
    } else {
      s' := StepsBackFrom(s0, s, t, u, v);
    }
  }

  lemma StepsBackFrom(s0: State, s: State, t: nat, u: nat, v: nat) returns (s': State)
    requires Reaches(s0, t, s) && Poised(s, t, u) && v < |s.pcs| && v != t && v != u
    requires s.pcs[v].Running? || s.pcs[v].Wanting?
    ensures Reaches(s0, t, s') && Poised(s', t, u) && s.made <= s'.made
    ensures v < |s'.pcs| && s'.pcs == s.pcs[v := s'.pcs[v]]
    ensures !HoldsMod(s'.pcs[v]) || Waits(s'.pcs[v])
  {
    hide Inv, Reaches;
    if s.pcs[v].Running? {
      s' := Leaves(s0, s, t, v);
    } else {
      var s1 := Calls(s0, s, t, v);
      if s1.pcs[v].Engaging? {
        s' := FallsAsleep(s0, s1, t, u, v);
      } else if s1.pcs[v].why.Retire? && |s1.deadBlocks| >= s1.deadsz {
        var s2 := Move(s1, v, Engaging(s1.pcs[v].why));
        assert Test(s1, v, s2);
        Go(s0, s1, t, v, s2);
        s' := FallsAsleep(s0, s2, t, u, v);
      } else {
        var s2 := Ends(s0, s1, t, v);
        s' := Leaves(s0, s2, t, v);
      }
    }
  }

  /** All but one of the awake threads can be brought to wait or to leave. */
  lemma {:induction false} AllStepBack(s0: State, s: State, t: nat, u: nat, n: nat) returns (s': State)
    requires Reaches(s0, t, s) && Poised(s, t, u) && n <= |s.pcs|
    requires forall v :: n <= v < |s.pcs| && v != u && HoldsMod(s.pcs[v]) ==> Waits(s.pcs[v])
    ensures Reaches(s0, t, s') && Poised(s', t, u) && OthersWait(s', u) && s.made <= s'.made
    ensures |s'.pcs| == |s.pcs| && s'.pcs[t] == s.pcs[t]
    decreases n
  {
    hide Inv, Reaches;
    if n == 0 {
      s' := s;
    } else {
      var v := n - 1;
      if v == u || !HoldsMod(s.pcs[v]) || Waits(s.pcs[v]) {
        s' := AllStepBack(s0, s, t, u, n - 1);
      } else {
        var s1 := StepsBack(s0, s, t, u, v);
        s' := AllStepBack(s0, s1, t, u, n - 1);
      }
    }
  }

  /** The last one awake comes to its own work. */
  lemma Settles(s0: State, s: State, t: nat, u: nat) returns (s': State)
    requires Reaches(s0, t, s) && Poised(s, t, u) && OthersWait(s, u)
    ensures Reaches(s0, t, s') && Alone(s', t, u) && s.made <= s'.made && |s'.pcs| == |s.pcs| && s'.pcs[t] == s.pcs[t]
  {
    hide Inv, Reaches;
    Counts(s);
    if s.pcs[u].Running? || s.pcs[u].Wanting? {
      s' := SettlesFrom(s0, s, t, u);
    } else if s.pcs[u].Checking? {
      var s1 := Checks(s0, s, t, u);
      s' := SettlesFrom(s0, s1, t, u);
    } else {
      var s1 := Leaves(s0, s, t, u);
      var s2 := Move(s1, u, Entering);
      assert Enter(s1, u, s2);
      Go(s0, s1, t, u, s2);
      var s3 := Move(s2, u, Checking).(nThreads := s2.nThreads + 1);
      assert Enter(s2, u, s3);
      Go(s0, s2, t, u, s3);
      var s4 := Checks(s0, s3, t, u);
      s' := SettlesFrom(s0, s4, t, u);
    }
  }

  lemma SettlesFrom(s0: State, s: State, t: nat, u: nat) returns (s': State)
    requires Reaches(s0, t, s) && Poised(s, t, u) && OthersWait(s, u) && (s.pcs[u].Running? || s.pcs[u].Wanting?)
    ensures Reaches(s0, t, s') && Alone(s', t, u) && s.made <= s'.made && |s'.pcs| == |s.pcs| && s'.pcs[t] == s.pcs[t]
  {
    hide Inv, Reaches;
    if s.pcs[u].Running? {
      s' := s;
    } else {
      var s1 := Calls(s0, s, t, u);
      if s1.pcs[u].Engaging? {
        var s2 := Frees(s0, s1, t, u);
        Counts(s2);
        s' := Ends(s0, s2, t, u);
      } else if s1.pcs[u].why.Retire? && |s1.deadBlocks| >= s1.deadsz {
        var s2 := Move(s1, u, Engaging(s1.pcs[u].why));
        assert Test(s1, u, s2);
        Go(s0, s1, t, u, s2);
        var s3 := Frees(s0, s2, t, u);
        Counts(s3);
        s' := Ends(s0, s3, t, u);
      } else {
        s' := Ends(s0, s1, t, u);
      }
    }
  }

  // ----- the keeper -----

  /** Into the call: with the buffer full, the thread is at the waiting loop. */
  lemma ComesToWait(s: State, t: nat, x: nat) returns (path: seq<State>)
    requires t < |s.pcs| && s.pcs[t] == Wanting(Swap(x)) && x < |s.targets| && s.owner == -1 && Inv(s)
    requires |s.deadBlocks| >= s.deadsz
    ensures |path| == 4 && Path(path) && path[0] == s && path[1] == Swapped(s, t, x) && Acquire(s, t, path[1])
    ensures path[2] == Move(path[1], t, Engaging(Retire(s.targets[x])))
    ensures path[3] == Move(path[2], t, Looping(Retire(s.targets[x]))).(bottleneck := true) && Inv(path[3])
  {
    hide Inv, Next;
    var why := Retire(s.targets[x]);
    var s1 := Swapped(s, t, x);
    assert Acquire(s, t, s1);
    Moves(s, t, s1);
    NextBy(s, t, s1);
    var s2 := Move(s1, t, Engaging(why));
    assert Test(s1, t, s2);
    Moves(s1, t, s2);
    NextBy(s1, t, s2);
    var s3 := Move(s2, t, Looping(why)).(bottleneck := true);
    assert Engage(s2, t, s3);
    Moves(s2, t, s3);
    NextBy(s2, t, s3);
    path := [s, s1, s2, s3];
  }

  /** From the waiting loop with all others waiting: the thread frees what was dead
      and returns. */
  lemma FreesAndReturns(s: State, t: nat, b: nat) returns (path: seq<State>)
    requires t < |s.pcs| && s.pcs[t] == Looping(Retire(b)) && s.waitCount >= s.nThreads - 1 && 0 < s.deadsz
    ensures |path| == 5 && Path(path) && path[0] == s && path[4].freed == s.freed + s.deadBlocks
    ensures forall k :: 0 <= k < 5 ==> t < |path[k].pcs| && (path[k].pcs[t].Running? <==> k == 4)
  {
    hide Next;
    var s1 := Move(s, t, Collecting(Retire(b)));
    assert Loop(s, t, s1);
    NextBy(s, t, s1);
    var s2 := Move(s1, t, Waking(Retire(b))).(freed := s.freed + s.deadBlocks, deadBlocks := [], needGC := false,
                                              sem := s.sem + s.waitCount);
    assert Collect(s1, t, s2);
    NextBy(s1, t, s2);
    var s3 := Move(s2, t, Testing(Retire(b))).(bottleneck := false);
    assert Release(s2, t, s3);
    NextBy(s2, t, s3);
    var s4 := Move(s3, t, Running).(owner := -1, deadBlocks := s3.deadBlocks + [b]);
    assert Test(s3, t, s4);
    NextBy(s3, t, s4);
    path := [s, s1, s2, s3, s4];
  }

  /** Back from the call, woken with the bottleneck off and room in the buffer. */
  lemma ComesBack(s: State, t: nat, u: nat) returns (path: seq<State>)
    requires Alone(s, t, u) && Carries(s.pcs[t]) && !s.bottleneck && |s.deadBlocks| < s.deadsz
    ensures |path| == 5 && Path(path) && path[0] == s && path[4].freed == s.freed
    ensures forall k :: 0 <= k < 5 ==> t < |path[k].pcs| && (path[k].pcs[t].Running? <==> k == 4)
  {
    hide Inv, Next, Count;
    var why := s.pcs[t].why;
    TokenForSleeper(s, t);
    var s1 := Move(s, t, Woken(why)).(sem := s.sem - 1);
    assert SemDown(s, t, s1);
    Moves(s, t, s1);
    NextBy(s, t, s1);
    var s2 := Move(s1, t, Looping(why)).(owner := t, waitCount := s.waitCount - 1);
    assert Reacquire(s1, t, s2);
    Moves(s1, t, s2);
    NextBy(s1, t, s2);
    Counts(s2);
    TwoAreAwake(s2, u, t);
    var s3 := Move(s2, t, Testing(why));
    assert Loop(s2, t, s3);
    NextBy(s2, t, s3);
    var s4 := Move(s3, t, Running).(owner := -1, deadBlocks := s3.deadBlocks + [why.b]);
    assert Test(s3, t, s4);
    NextBy(s3, t, s4);
    path := [s, s1, s2, s3, s4];
  }

  /** While the thread sleeps, the others can get any block freed but the one it
      carries. */
  lemma LosesAsleep(s: State, t: nat, c: nat) returns (path: seq<State>)
    requires Inv(s) && t < |s.pcs| && s.pcs[t].Sleeping? && Carries(s.pcs[t]) && s.owner == -1
    requires s.waitCount < s.nThreads && c < s.made && !InHand(s.pcs[t], c)
    ensures |path| > 1 && Path(path) && path[0] == s && c in path[|path| - 1].freed
    ensures forall k :: 0 <= k < |path| ==> t < |path[k].pcs| && (path[k].pcs[t].Running? <==> k == |path| - 1)
  {
    hide Inv, Path, Count, Carries;
    Counts(s);
    var u := Extra(s.pcs, Waits, HoldsMod);
    Here(s, t);
    var s1 := AllStepBack(s, s, t, u, |s.pcs|);
    var s2 := Settles(s, s1, t, u);
    var s3 := GetsFreed(s, s2, t, u, c);
    Counts(s3);
    var way: seq<State> :| Way(way, s, t, s3);
    assert s3.pcs[t] == s.pcs[t] by {
      assert way[|way| - 1].pcs[t] == s.pcs[t];
    }
    var tail := ComesBack(s3, t, u);
    Joined(way, tail);
    path := way + tail[1..];
  }

  /** When the guard fails, some path loses the block. */
  lemma UnguardedIsLost(s: State, t: nat, x: nat, c: nat) returns (path: seq<State>)
    requires Inv(s) && t < |s.pcs| && s.pcs[t] == Wanting(Swap(x)) && x < |s.targets| && s.owner == -1
    requires c <= s.made && c !in s.freed && !MayKeep(s, x, c)
    ensures Returns(path, t) && path[0] == s && c in path[|path| - 1].freed
  {
    hide Inv, Path;
    var head := ComesToWait(s, t, x);
    var why := Retire(s.targets[x]);
    var s3 := head[3];
    if s.waitCount >= s.nThreads - 1 {
      Counts(s);
      var tail := FreesAndReturns(s3, t, s.targets[x]);
      Joined(head, tail);
      path := head + tail[1..];
    } else {
      var s4 := Move(s3, t, Sleeping(why)).(owner := -1, waitCount := s.waitCount + 1);
      assert Loop(s3, t, s4);
      Moves(s3, t, s4);
      NextBy(s3, t, s4);
      Longer(head, s4);
      var tail := LosesAsleep(s4, t, c);
      Joined(head + [s4], tail);
      path := head + [s4] + tail[1..];
    }
  }

  /** Whatever the others do, the block is still good when the call returns. */
  ghost predicate StaysGood(s: State, t: nat, c: nat) {
    forall path: seq<State> :: Returns(path, t) && path[0] == s ==> c !in path[|path| - 1].freed
  }

  /** The exact condition, for every reachable state and every block that the thread
      could know: the record it puts in place, the one it replaces, or one it has
      read before. It stays good over the call if and only if the guard holds when
      the thread takes the lock. */
  lemma KeptIff(run: seq<State>, i: nat, t: nat, x: nat, c: nat)
    requires Run(run) && i < |run| && t < |run[i].pcs| && run[i].owner == -1
    requires run[i].pcs[t] == Wanting(Swap(x)) && c <= run[i].made && c !in run[i].freed
    ensures x < |run[i].targets|
    ensures StaysGood(run[i], t, c) <==> MayKeep(run[i], x, c)
  {
    hide Init, Next, Inv;
    RunInv(run, i);
    Whys(run[i], t);
    if MayKeep(run[i], x, c) {
      forall path: seq<State> | Returns(path, t) && path[0] == run[i]
        ensures c !in path[|path| - 1].freed
      {
        GuardedIsKept(path, t, x, c);
      }
    } else {
      var path := UnguardedIsLost(run[i], t, x, c);
    }
  }

  // ----- a run that loses the new record -----

  /** Two threads at their own work, one target, and `n` dead blocks. */
  predicate Stocked(s: State, n: nat) {
    && s.pcs == [Running, Running] && s.owner == -1 && s.nThreads == 2 && s.waitCount == 0 && |s.targets| == 1
    && |s.deadBlocks| == n && s.deadsz == 256 && s.freed == []
  }

  lemma {:induction false} Stock(n: nat) returns (run: seq<State>)
    requires n <= 256
    ensures Run(run) && |run[0].pcs| == 2 && Stocked(run[|run| - 1], n)
  {
    hide Next;
    if n == 0 {
      run := StockNone();
    } else {
      var before := Stock(n - 1);
      var s := before[|before| - 1];
      var s1 := Move(s, 0, Wanting(Swap(0)));
      assert Pause(s, 0, s1);
      NextBy(s, 0, s1);
      var s2 := Swapped(s1, 0, 0);
      assert Acquire(s1, 0, s2);
      NextBy(s1, 0, s2);
      var s3 := Move(s2, 0, Running).(owner := -1, deadBlocks := s2.deadBlocks + [s.targets[0]]);
      assert Test(s2, 0, s3);
      NextBy(s2, 0, s3);
      run := before + [s1, s2, s3];
    }
  }

  lemma StockNone() returns (run: seq<State>)
    ensures Run(run) && |run[0].pcs| == 2 && Stocked(run[|run| - 1], 0)
  {
    hide Next;
    var s0 := State([Out, Out], -1, 0, 0, false, false, 0, 0, [], [], 256, []);
    var head := Starts(s0, 0);
    var s4 := head[3];
    var tail := Starts(s4, 1);
    var s7 := tail[3];
    var s8 := s7.(targets := [0], made := 1);
    assert Make(s7, 0, s8);
    NextBy(s7, 0, s8);
    Joined(head, tail);
    run := head + tail[1..] + [s8];
    Longer(head + tail[1..], s8);
  }

  lemma Starts(s: State, t: nat) returns (path: seq<State>)
    requires t < |s.pcs| && s.pcs[t].Out? && s.owner == -1 && !s.bottleneck
    ensures |path| == 4 && Path(path) && path[0] == s && path[3] == Move(s, t, Running).(nThreads := s.nThreads + 1)
  {
    hide Next;
    var s1 := Move(s, t, Entering);
    assert Enter(s, t, s1);
    NextBy(s, t, s1);
    var s2 := Move(s1, t, Checking).(nThreads := s.nThreads + 1);
    assert Enter(s1, t, s2);
    NextBy(s1, t, s2);
    var s3 := Move(s2, t, Running);
    assert ReadFlag(s2, t, s3);
    NextBy(s2, t, s3);
    path := [s, s1, s2, s3];
    assert s3 == Move(s, t, Running).(nThreads := s.nThreads + 1);
  }

  /** A whole run of two threads in which a record is freed before the call that put
      it in place returns: what hash.c uses next is gone. */
  lemma NewRecordIsLost() returns (run: seq<State>, i: nat, c: nat)
    ensures Run(run) && |run[0].pcs| == 2 && i + 1 < |run|
    ensures run[i].pcs != [] && run[i].pcs[0] == Wanting(Swap(0))
    ensures Acquire(run[i], 0, run[i + 1]) && run[i + 1].targets == [c] && c !in run[i].targets
    ensures forall k :: i < k < |run| ==> run[k].pcs != [] && (run[k].pcs[0].Running? <==> k == |run| - 1)
    ensures c in run[|run| - 1].freed
  {
    hide Next, Inv;
    var before := Stock(256);
    var s := before[|before| - 1];
    var s1 := Move(s, 0, Wanting(Swap(0)));
    assert Pause(s, 0, s1);
    NextBy(s, 0, s1);
    Longer(before, s1);
    var head := before + [s1];
    RunInv(head, |before|);
    i, c := |before|, s1.made;
    Counts(s1);
    var path := UnguardedIsLost(s1, 0, 0, c);
    Joined(head, path);
    run := head + path[1..];
  }
}
