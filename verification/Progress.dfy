/** What the bottleneck promises about progress. On every path of any number of threads a
    bottleneck that is on leads to a collection after a bounded number of steps, not counting
    what the threads do about their own work. No thread is promised its own turn: in a fair
    run of three threads one never leaves bottleneck() and never collects. */
module Progress {
  import opened Protocol
  import opened Bottleneck

  // ----- a bottleneck that is on leads to a collection -----

  /** How far a thread is from sleeping while the bottleneck is on. */
  function Weight(p: Pc): nat {
    match p
    case Sleeping(_) => 1
    case Looping(_) => 2
    case Woken(_) => 3
    case Engaging(_) => 3
    case Wanting(why) => if why.Check? then 4 else 14
    case Checking => 5
    case Entering => 6
    case Out => 7
    case Leaving => 11
    case Running => 12
    case Testing(_) => 13
    case _ => 0
  }

  function Weights(pcs: seq<Pc>): nat {
    if pcs == [] then 0 else Weight(pcs[0]) + Weights(pcs[1..])
  }

  lemma {:induction false} WeightsMove(pcs: seq<Pc>, t: nat, p: Pc)
    requires t < |pcs|
    ensures Weights(pcs[t := p]) == Weights(pcs) - Weight(pcs[t]) + Weight(p)
  {
    if t == 0 {
      assert pcs[0 := p][1..] == pcs[1..];
    } else {
      assert pcs[t := p][1..] == pcs[1..][t - 1 := p];
      WeightsMove(pcs[1..], t - 1, p);
    }
  }

  /** Each token lets one thread go round the waiting loop once more. */
  function Rest(s: State): int { Weights(s.pcs) + 3 * s.sem }

  predicate Alone(p: Pc) { p.Collecting? || p.Waking? }

  ghost predicate Quiet(s: State) { forall t :: 0 <= t < |s.pcs| ==> !Alone(s.pcs[t]) }

  /** A step of a thread about its own work: it makes an object, or wants the lock for
      objects or for a swap without having read the flag. */
  ghost predicate OwnWork(s: State, s': State) {
    || |s'.targets| > |s.targets|
    || exists t :: 0 <= t < |s.pcs| && t < |s'.pcs| && s.pcs[t].Running? && s'.pcs[t].Wanting?
  }

  ghost function Works(path: seq<State>): nat {
    if |path| < 2 then 0
    else Works(path[..|path| - 1]) + if OwnWork(path[|path| - 2], path[|path| - 1]) then 1 else 0
  }

  /** What the mover's step does while the bottleneck is on. */
  ghost predicate Nearer(s: State, t: nat, s': State)
    requires t < |s.pcs|
  {
    && s'.bottleneck && t < |s'.pcs| && s'.pcs == s.pcs[t := s'.pcs[t]] && !s'.pcs[t].Waking?
    && (s'.pcs[t].Collecting? || Weight(s'.pcs[t]) + 3 * s'.sem
                                 < Weight(s.pcs[t]) + 3 * s.sem + if OwnWork(s, s') then 3 else 0)
  }

  lemma WorkNears(s: State, t: nat, s': State)
    requires t < |s.pcs| && s.bottleneck && !Alone(s.pcs[t])
    requires || Enter(s, t, s') || ReadFlag(s, t, s') || Pause(s, t, s') || Leave(s, t, s')
             || Acquire(s, t, s') || Test(s, t, s')
    ensures Nearer(s, t, s')
  {
    assert s.pcs[t].Running? && s'.pcs[t].Wanting? ==> OwnWork(s, s');
  }

  lemma WaitNears(s: State, t: nat, s': State)
    requires t < |s.pcs| && s.bottleneck && !Alone(s.pcs[t])
    requires || Engage(s, t, s') || Loop(s, t, s') || SemDown(s, t, s') || Reacquire(s, t, s')
             || Collect(s, t, s') || Release(s, t, s')
    ensures Nearer(s, t, s')
  {
  }

  /** While the bottleneck is on and nobody collects, every step but a thread's own work
      brings the threads nearer to sleep. */
  lemma StepRests(s: State, t: nat, s': State)
    requires t < |s.pcs| && Step(s, t, s') && s.bottleneck && Quiet(s)
    ensures s'.bottleneck && (Quiet(s') || (t < |s'.pcs| && s'.pcs[t].Collecting?))
    ensures Quiet(s') ==> Rest(s') < Rest(s) + if OwnWork(s, s') then 3 else 0
  {
    hide Weights, Weight, Enter, ReadFlag, Pause, Leave, Acquire, Test;
    hide Engage, Loop, SemDown, Reacquire, Collect, Release;
    if Make(s, t, s') {
      assert OwnWork(s, s');
    } else {
      if Engage(s, t, s') || Loop(s, t, s') || SemDown(s, t, s') || Reacquire(s, t, s')
         || Collect(s, t, s') || Release(s, t, s') {
        WaitNears(s, t, s');
      } else {
        WorkNears(s, t, s');
      }
      WeightsMove(s.pcs, t, s'.pcs[t]);
    }
  }

  /** The bottleneck resolves itself on every path: as long as nobody collects, there are no
      more steps than the threads could rest at the start and three for each step of own work. */
  lemma {:induction false} PathRests(path: seq<State>)
    requires Path(path) && path[0].bottleneck
    requires forall i :: 0 <= i < |path| ==> Quiet(path[i])
    ensures path[|path| - 1].bottleneck
    ensures Rest(path[|path| - 1]) + |path| - 1 <= Rest(path[0]) + 3 * Works(path)
  {
    hide Step, Weights, OwnWork, Quiet;
    if |path| > 1 {
      var n := |path| - 1;
      var before := path[..n];
      assert forall i :: 0 <= i < n - 1 ==> Next(path[i], path[i + 1]) ==> Next(before[i], before[i + 1]);
      PathRests(before);
      assert Next(path[n - 1], path[n]);
      var t: nat :| t < |path[n - 1].pcs| && Step(path[n - 1], t, path[n]);
      StepRests(path[n - 1], t, path[n]);
    }
  }

  lemma {:induction false} FirstAlone(path: seq<State>) returns (k: nat, t: nat)
    requires Path(path) && path[0].bottleneck && Quiet(path[0])
    requires exists i :: 0 <= i < |path| && !Quiet(path[i])
    ensures k < |path| && t < |path[k].pcs| && path[k].pcs[t].Collecting?
  {
    hide Step, Weights, OwnWork, Quiet;
    var n := |path| - 1;
    var before := path[..n];
    assert n > 0;
    assert forall i :: 0 <= i < n - 1 ==> Next(path[i], path[i + 1]) ==> Next(before[i], before[i + 1]);
    if i :| 0 <= i < n && !Quiet(path[i]) {
      assert before[i] == path[i];
      k, t := FirstAlone(before);
    } else {
      PathRests(before);
      assert Next(path[n - 1], path[n]);
      k := n;
      t :| t < |path[n - 1].pcs| && Step(path[n - 1], t, path[n]);
      StepRests(path[n - 1], t, path[n]);
    }
  }

  /** So a run that goes on long enough collects, however the threads are scheduled. */
  lemma AlwaysCollects(run: seq<State>, i: nat) returns (k: nat, t: nat)
    requires Run(run) && i < |run| && run[i].bottleneck
    requires |run| - i - 1 > Rest(run[i]) + 3 * Works(run[i..])
    ensures i <= k < |run| && t < |run[k].pcs| && Alone(run[k].pcs[t])
  {
    hide Init, Next, Weights, Works, Inv;
    var path := run[i..];
    assert forall j :: 0 <= j < |path| - 1 ==> Next(run[i + j], run[i + j + 1]) ==> Next(path[j], path[j + 1]);
    if Quiet(path[0]) {
      if forall j :: 0 <= j < |path| ==> Quiet(path[j]) {
        PathRests(path);
        RunInv(run, |run| - 1);
        NothingOwed(path[|path| - 1]);
      }
      k, t := FirstAlone(path);
      k := i + k;
    } else {
      k := i;
      t :| t < |run[i].pcs| && Alone(run[i].pcs[t]);
    }
  }

  lemma NothingOwed(s: State)
    requires Inv(s)
    ensures Rest(s) >= 0
  {
    hide Weights, BlocksOk, WhysOk, AloneOk, TokensOk, LockOk;
  }

  // ----- no thread is promised its own turn -----

  /** A waiter that has the lock again sleeps once more exactly when the bottleneck is on, which
      another thread may have done meanwhile, and some other holder is not parked. */
  lemma SleepsAgainIff(run: seq<State>, i: nat, t: nat, s': State)
    requires Run(run) && i < |run| && t < |run[i].pcs| && Loop(run[i], t, s')
    ensures s'.pcs[t].Sleeping? <==>
      && run[i].bottleneck
      && exists u :: 0 <= u < |run[i].pcs| && u != t && HoldsMod(run[i].pcs[u]) && !Waits(run[i].pcs[u])
  {
    hide Init, Next, Count, BlocksOk, WhysOk, TokensOk, AloneOk;
    RunInv(run, i);
    var s := run[i];
    if u :| 0 <= u < |s.pcs| && u != t && HoldsMod(s.pcs[u]) && !Waits(s.pcs[u]) {
      CountGap(s.pcs, Waits, HoldsMod, if t < u then t else u, if t < u then u else t);
    } else {
      OneAwake(s.pcs, t);
    }
  }

  lemma {:induction false} OneAwake(pcs: seq<Pc>, t: nat)
    requires t < |pcs| && HoldsMod(pcs[t]) && forall u :: 0 <= u < |pcs| && u != t && HoldsMod(pcs[u]) ==> Waits(pcs[u])
    ensures Count(pcs, HoldsMod) <= Count(pcs, Waits) + 1
  {
    if t == 0 {
      AllParked(pcs[1..]);
    } else {
      OneAwake(pcs[1..], t - 1);
    }
  }

  lemma {:induction false} AllParked(pcs: seq<Pc>)
    requires forall u :: 0 <= u < |pcs| && HoldsMod(pcs[u]) ==> Waits(pcs[u])
    ensures Count(pcs, HoldsMod) <= Count(pcs, Waits)
  {
    if pcs != [] {
      AllParked(pcs[1..]);
    }
  }

  /** A run that never ends. */
  ghost predicate Endless(run: nat -> State) {
    Init(run(0)) && forall i: nat :: Next(run(i), run(i + 1))
  }

  /** Every thread moves again and again. */
  ghost predicate Fair(run: nat -> State) {
    forall t: nat, i: nat {:trigger Again(run, t, i)} :: t < |run(0).pcs| ==> Again(run, t, i)
  }

  ghost predicate Again(run: nat -> State, t: nat, i: nat) {
    exists j: nat :: i <= j && Moves(run, t, j)
  }

  predicate Moves(run: nat -> State, t: nat, j: nat) {
    t < |run(j).pcs| && t < |run(j + 1).pcs| && run(j).pcs[t] != run(j + 1).pcs[t]
  }

  /** Three threads that make no blocks. */
  function At(p: Pc, q: Pc, r: Pc, owner: int, n: int, waiting: int, on: bool, gc: bool, sem: int): State {
    State([p, q, r], owner, n, waiting, on, gc, sem, 0, [], [], 256, [])
  }

  /** The three enter, and the first two come to wait for objects. */
  function Opening(i: nat): State {
    match i
    case 0 => At(Out, Out, Out, -1, 0, 0, false, false, 0)
    case 1 => At(Entering, Out, Out, -1, 0, 0, false, false, 0)
    case 2 => At(Checking, Out, Out, -1, 1, 0, false, false, 0)
    case 3 => At(Running, Out, Out, -1, 1, 0, false, false, 0)
    case 4 => At(Running, Entering, Out, -1, 1, 0, false, false, 0)
    case 5 => At(Running, Checking, Out, -1, 2, 0, false, false, 0)
    case 6 => At(Running, Running, Out, -1, 2, 0, false, false, 0)
    case 7 => At(Running, Running, Entering, -1, 2, 0, false, false, 0)
    case 8 => At(Running, Running, Checking, -1, 3, 0, false, false, 0)
    case 9 => At(Running, Running, Running, -1, 3, 0, false, false, 0)
    case 10 => At(Wanting(Get), Running, Running, -1, 3, 0, false, false, 0)
    case 11 => At(Testing(Get), Running, Running, 0, 3, 0, false, false, 0)
    case 12 => At(Engaging(Get), Running, Running, 0, 3, 0, false, true, 0)
    case 13 => At(Looping(Get), Running, Running, 0, 3, 0, true, true, 0)
    case 14 => At(Sleeping(Get), Running, Running, -1, 3, 1, true, true, 0)
    case 15 => At(Sleeping(Get), Wanting(Get), Running, -1, 3, 1, true, true, 0)
    case 16 => At(Sleeping(Get), Testing(Get), Running, 1, 3, 1, true, true, 0)
    case 17 => At(Sleeping(Get), Engaging(Get), Running, 1, 3, 1, true, true, 0)
    case 18 => At(Sleeping(Get), Looping(Get), Running, 1, 3, 1, true, true, 0)
    case _ => At(Sleeping(Get), Sleeping(Get), Running, -1, 3, 2, true, true, 0)
  }

  /** The third collects; the second wakes, takes its objects and asks for more before the
      first has the lock, which so finds the bottleneck on again. */
  function Round(i: nat): State {
    match i
    case 0 => At(Sleeping(Get), Sleeping(Get), Running, -1, 3, 2, true, true, 0)
    case 1 => At(Sleeping(Get), Sleeping(Get), Wanting(Get), -1, 3, 2, true, true, 0)
    case 2 => At(Sleeping(Get), Sleeping(Get), Testing(Get), 2, 3, 2, true, true, 0)
    case 3 => At(Sleeping(Get), Sleeping(Get), Engaging(Get), 2, 3, 2, true, true, 0)
    case 4 => At(Sleeping(Get), Sleeping(Get), Looping(Get), 2, 3, 2, true, true, 0)
    case 5 => At(Sleeping(Get), Sleeping(Get), Collecting(Get), 2, 3, 2, true, true, 0)
    case 6 => At(Sleeping(Get), Sleeping(Get), Waking(Get), 2, 3, 2, true, false, 2)
    case 7 => At(Sleeping(Get), Sleeping(Get), Testing(Get), 2, 3, 2, false, false, 2)
    case 8 => At(Sleeping(Get), Sleeping(Get), Running, -1, 3, 2, false, false, 2)
    case 9 => At(Sleeping(Get), Woken(Get), Running, -1, 3, 2, false, false, 1)
    case 10 => At(Sleeping(Get), Looping(Get), Running, 1, 3, 1, false, false, 1)
    case 11 => At(Sleeping(Get), Testing(Get), Running, 1, 3, 1, false, false, 1)
    case 12 => At(Sleeping(Get), Running, Running, -1, 3, 1, false, false, 1)
    case 13 => At(Sleeping(Get), Wanting(Get), Running, -1, 3, 1, false, false, 1)
    case 14 => At(Sleeping(Get), Testing(Get), Running, 1, 3, 1, false, false, 1)
    case 15 => At(Sleeping(Get), Engaging(Get), Running, 1, 3, 1, false, true, 1)
    case 16 => At(Sleeping(Get), Looping(Get), Running, 1, 3, 1, true, true, 1)
    case 17 => At(Sleeping(Get), Sleeping(Get), Running, -1, 3, 2, true, true, 1)
    case 18 => At(Woken(Get), Sleeping(Get), Running, -1, 3, 2, true, true, 0)
    case 19 => At(Looping(Get), Sleeping(Get), Running, 0, 3, 1, true, true, 0)
    case _ => At(Sleeping(Get), Sleeping(Get), Running, -1, 3, 2, true, true, 0)
  }

  function Starving(i: nat): State {
    if i < 19 then Opening(i) else Round((i - 19) % 20)
  }

  lemma OpeningSteps(i: nat)
    requires 0 <= i < 19
    ensures Next(Opening(i), Opening(i + 1))
  {
    hide Next;
    match i {
      case 0 => assert Enter(Opening(0), 0, Opening(1)); NextBy(Opening(0), 0, Opening(1));
      case 1 => assert Enter(Opening(1), 0, Opening(2)); NextBy(Opening(1), 0, Opening(2));
      case 2 => assert ReadFlag(Opening(2), 0, Opening(3)); NextBy(Opening(2), 0, Opening(3));
      case 3 => assert Enter(Opening(3), 1, Opening(4)); NextBy(Opening(3), 1, Opening(4));
      case 4 => assert Enter(Opening(4), 1, Opening(5)); NextBy(Opening(4), 1, Opening(5));
      case 5 => assert ReadFlag(Opening(5), 1, Opening(6)); NextBy(Opening(5), 1, Opening(6));
      case 6 => assert Enter(Opening(6), 2, Opening(7)); NextBy(Opening(6), 2, Opening(7));
      case 7 => assert Enter(Opening(7), 2, Opening(8)); NextBy(Opening(7), 2, Opening(8));
      case 8 => assert ReadFlag(Opening(8), 2, Opening(9)); NextBy(Opening(8), 2, Opening(9));
      case 9 => assert Pause(Opening(9), 0, Opening(10)); NextBy(Opening(9), 0, Opening(10));
      case 10 => assert Acquire(Opening(10), 0, Opening(11)); NextBy(Opening(10), 0, Opening(11));
      case 11 => assert Test(Opening(11), 0, Opening(12)); NextBy(Opening(11), 0, Opening(12));
      case 12 => assert Engage(Opening(12), 0, Opening(13)); NextBy(Opening(12), 0, Opening(13));
      case 13 => assert Loop(Opening(13), 0, Opening(14)); NextBy(Opening(13), 0, Opening(14));
      case 14 => assert Pause(Opening(14), 1, Opening(15)); NextBy(Opening(14), 1, Opening(15));
      case 15 => assert Acquire(Opening(15), 1, Opening(16)); NextBy(Opening(15), 1, Opening(16));
      case 16 => assert Test(Opening(16), 1, Opening(17)); NextBy(Opening(16), 1, Opening(17));
      case 17 => assert Engage(Opening(17), 1, Opening(18)); NextBy(Opening(17), 1, Opening(18));
      case 18 => assert Loop(Opening(18), 1, Opening(19)); NextBy(Opening(18), 1, Opening(19));
    }
  }

  lemma FirstSteps(i: nat)
    requires 0 <= i < 10
    ensures Next(Round(i), Round(i + 1))
  {
    hide Next;
    match i {
      case 0 => assert Pause(Round(0), 2, Round(1)); NextBy(Round(0), 2, Round(1));
      case 1 => assert Acquire(Round(1), 2, Round(2)); NextBy(Round(1), 2, Round(2));
      case 2 => assert Test(Round(2), 2, Round(3)); NextBy(Round(2), 2, Round(3));
      case 3 => assert Engage(Round(3), 2, Round(4)); NextBy(Round(3), 2, Round(4));
      case 4 => assert Loop(Round(4), 2, Round(5)); NextBy(Round(4), 2, Round(5));
      case 5 => assert Collect(Round(5), 2, Round(6)); NextBy(Round(5), 2, Round(6));
      case 6 => assert Release(Round(6), 2, Round(7)); NextBy(Round(6), 2, Round(7));
      case 7 => assert Test(Round(7), 2, Round(8)); NextBy(Round(7), 2, Round(8));
      case 8 => assert SemDown(Round(8), 1, Round(9)); NextBy(Round(8), 1, Round(9));
      case 9 => assert Reacquire(Round(9), 1, Round(10)); NextBy(Round(9), 1, Round(10));
    }
  }

  lemma LastSteps(i: nat)
    requires 10 <= i < 20
    ensures Next(Round(i), Round(i + 1))
  {
    hide Next;
    match i {
      case 10 => assert Loop(Round(10), 1, Round(11)); NextBy(Round(10), 1, Round(11));
      case 11 => assert Test(Round(11), 1, Round(12)); NextBy(Round(11), 1, Round(12));
      case 12 => assert Pause(Round(12), 1, Round(13)); NextBy(Round(12), 1, Round(13));
      case 13 => assert Acquire(Round(13), 1, Round(14)); NextBy(Round(13), 1, Round(14));
      case 14 => assert Test(Round(14), 1, Round(15)); NextBy(Round(14), 1, Round(15));
      case 15 => assert Engage(Round(15), 1, Round(16)); NextBy(Round(15), 1, Round(16));
      case 16 => assert Loop(Round(16), 1, Round(17)); NextBy(Round(16), 1, Round(17));
      case 17 => assert SemDown(Round(17), 0, Round(18)); NextBy(Round(17), 0, Round(18));
      case 18 => assert Reacquire(Round(18), 0, Round(19)); NextBy(Round(18), 0, Round(19));
      case 19 => assert Loop(Round(19), 0, Round(20)); NextBy(Round(19), 0, Round(20));
    }
  }

  lemma StarvingSteps(i: nat)
    ensures Next(Starving(i), Starving(i + 1))
  {
    hide Next, Round, Opening;
    if i < 19 {
      OpeningSteps(i);
      OpeningEnds();
    } else {
      var k := (i - 19) % 20;
      assert (i + 1 - 19) % 20 == if k == 19 then 0 else k + 1;
      RoundCloses();
      if k < 10 {
        FirstSteps(k);
      } else {
        LastSteps(k);
      }
    }
  }

  lemma OpeningEnds()
    ensures Opening(19) == Round(0)
  {
  }

  lemma RoundCloses()
    ensures Round(20) == Round(0)
  {
  }

  /** Where each thread moves in a round. */
  lemma MovesInRound(t: nat, i: nat)
    requires t < 3
    ensures Again(Starving, t, i)
  {
    hide Round, Opening;
    var k := if t == 0 then 17 else if t == 1 then 8 else 0;
    var j := 19 + 20 * i + k;
    assert (j - 19) % 20 == k && (j + 1 - 19) % 20 == k + 1;
    RoundMoves();
    assert Moves(Starving, t, j);
  }

  lemma RoundMoves()
    ensures Round(17).pcs[0] != Round(18).pcs[0]
    ensures Round(8).pcs[1] != Round(9).pcs[1]
    ensures Round(0).pcs[2] != Round(1).pcs[2]
    ensures forall i: nat :: |Round(i).pcs| == 3
  {
  }

  predicate InBottleneck(p: Pc) { p.Looping? || Waits(p) }

  /** Fair scheduling is not enough for one thread: there is a run without end of three threads
      in which all of them move again and again, and from some state on the first is always
      inside bottleneck(), sleeping, awake, and asleep again, and never collects. */
  lemma FairButStarved() returns (run: nat -> State, from: nat)
    ensures Endless(run) && Fair(run) && |run(0).pcs| == 3
    ensures forall i: nat :: from <= i ==> |run(i).pcs| == 3 && InBottleneck(run(i).pcs[0])
  {
    hide Next, Round, Opening;
    run, from := Starving, 19;
    forall i: nat
      ensures Next(run(i), run(i + 1))
    {
      StarvingSteps(i);
    }
    Beginning();
    forall t: nat, i: nat | t < 3
      ensures Again(run, t, i)
    {
      MovesInRound(t, i);
    }
    forall i: nat | 19 <= i
      ensures |run(i).pcs| == 3 && InBottleneck(run(i).pcs[0])
    {
      RoundStays((i - 19) % 20);
    }
  }

  lemma Beginning()
    ensures Init(Starving(0)) && |Starving(0).pcs| == 3
  {
  }

  lemma RoundStays(i: nat)
    ensures |Round(i).pcs| == 3 && InBottleneck(Round(i).pcs[0])
  {
  }
}
