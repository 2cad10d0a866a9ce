/** The collector's thread protocol: any number of threads, interleaved at every
    acquisition and release of the lock, at every semaphore wait, and at the one
    read of the bottleneck flag that takes no lock. One thread at a time gets to
    run alone, with every other mod-lock holder asleep. */
module Protocol {
  import opened Basics

  /** Why a thread calls the bottleneck: it saw the flag, it needs objects, it is
      about to replace the block of target `x`, or it has replaced the block `b`. */
  datatype Why = Check | Get | Swap(x: nat) | Retire(b: nat)

  /** Where a thread stands. */
  datatype Pc =
    | Out                    // holds no mod lock
    | Entering               // naModLock, before the lock
    | Checking               // about to read the flag
    | Running                // about its own work, with the mod lock
    | Leaving                // naModUnlock, before the lock
    | Wanting(why: Why)      // before the lock
    | Testing(why: Why)      // has the lock, at the loop around bottleneck()
    | Engaging(why: Why)     // has the lock, entered bottleneck()
    | Looping(why: Why)      // has the lock, at the waiting loop
    | Sleeping(why: Why)     // gave up the lock, waits for a token
    | Woken(why: Why)        // took a token, waits for the lock
    | Collecting(why: Why)   // has the lock, runs alone
    | Waking(why: Why)       // has the lock, has released the sleepers

  datatype State = State(
    pcs: seq<Pc>,
    owner: int,              // of the lock, or -1
    nThreads: int,
    waitCount: int,
    bottleneck: bool,
    needGC: bool,
    sem: int,
    made: nat,               // blocks 0..made exist
    targets: seq<nat>,       // the block in place in each target
    deadBlocks: seq<nat>,
    deadsz: nat,
    freed: seq<nat>)         // every call of free, in order

  predicate HoldsMod(p: Pc) { !p.Out? && !p.Entering? }

  predicate HoldsLock(p: Pc) {
    p.Testing? || p.Engaging? || p.Looping? || p.Collecting? || p.Waking?
  }

  predicate Waits(p: Pc) { p.Sleeping? || p.Woken? }

  predicate Sleeps(p: Pc) { p.Sleeping? }

  predicate IsWoken(p: Pc) { p.Woken? }

  /** A thread that has replaced a block but not yet handed it over. */
  predicate Carries(p: Pc) { (HoldsLock(p) || Waits(p)) && p.why.Retire? }

  predicate InHand(p: Pc, b: nat) { Carries(p) && p.why.b == b }

  predicate SameHand(p: Pc, q: Pc) { Carries(p) == Carries(q) && (Carries(p) ==> p.why.b == q.why.b) }

  // ----- steps -----

  function Move(s: State, t: nat, p: Pc): State
    requires t < |s.pcs|
  {
    s.(pcs := s.pcs[t := p])
  }

  /** naModLock: one critical section, then the check. */
  ghost predicate Enter(s: State, t: nat, s': State)
    requires t < |s.pcs|
  {
    || (s.pcs[t].Out? && s' == Move(s, t, Entering))
    || (s.pcs[t].Entering? && s.owner == -1 && s' == Move(s, t, Checking).(nThreads := s.nThreads + 1))
  }

  /** naCheckBottleneck reads the flag without the lock. */
  ghost predicate ReadFlag(s: State, t: nat, s': State)
    requires t < |s.pcs|
  {
    s.pcs[t].Checking? && s' == Move(s, t, if s.bottleneck then Wanting(Check) else Running)
  }

  /** A running thread makes an object with a target of its own. What is in place
      at first, a null pointer, counts as a block too. */
  ghost predicate Make(s: State, t: nat, s': State)
    requires t < |s.pcs|
  {
    s.pcs[t].Running? && s' == s.(targets := s.targets + [s.made], made := s.made + 1)
  }

  /** A running thread comes to a point where it may have to wait. */
  ghost predicate Pause(s: State, t: nat, s': State)
    requires t < |s.pcs|
  {
    && s.pcs[t].Running? && t < |s'.pcs| && s' == Move(s, t, s'.pcs[t])
    && (|| s'.pcs[t] == Checking || s'.pcs[t] == Leaving || s'.pcs[t] == Wanting(Get)
        || (s'.pcs[t].Wanting? && s'.pcs[t].why.Swap? && s'.pcs[t].why.x < |s.targets|))
  }

  /** naModUnlock: the last thread that others wait for wakes one of them. */
  ghost predicate Leave(s: State, t: nat, s': State)
    requires t < |s.pcs|
  {
    && s.pcs[t].Leaving? && s.owner == -1
    && var n := s.nThreads - 1;
       s' == Move(s, t, Out).(nThreads := n, sem := if s.waitCount == n then s.sem + 1 else s.sem)
  }

  /** Taking the lock to call bottleneck(). A swap puts a new block in place at
      once and has the replaced one in hand. */
  ghost predicate Acquire(s: State, t: nat, s': State)
    requires t < |s.pcs|
  {
    && s.pcs[t].Wanting? && s.owner == -1
    && match s.pcs[t].why
       case Check => s' == Move(s, t, Engaging(Check)).(owner := t)
       case Get => s' == Move(s, t, Testing(Get)).(owner := t)
       case Swap(x) => x < |s.targets| && s' == Swapped(s, t, x)
       case Retire(_) => false
  }

  function Swapped(s: State, t: nat, x: nat): State
    requires t < |s.pcs| && x < |s.targets|
  {
    Move(s, t, Testing(Retire(s.targets[x]))).(owner := t, targets := s.targets[x := s.made], made := s.made + 1)
  }

  /** The loops around bottleneck(): naGC_get goes on until it has objects,
      naGC_swapfree until there is room; the check calls it once. */
  ghost predicate Test(s: State, t: nat, s': State)
    requires t < |s.pcs|
  {
    && s.pcs[t].Testing?
    && match s.pcs[t].why
       case Check => s' == Move(s, t, Running).(owner := -1)
       case Swap(_) => false
       case Get =>
         || s' == Move(s, t, Engaging(Get)).(needGC := true)
         || s' == Move(s, t, Running).(owner := -1)
       case Retire(b) =>
         if |s.deadBlocks| >= s.deadsz then s' == Move(s, t, Engaging(Retire(b)))
         else s' == Move(s, t, Running).(owner := -1, deadBlocks := s.deadBlocks + [b])
  }

  ghost predicate Engage(s: State, t: nat, s': State)
    requires t < |s.pcs|
  {
    s.pcs[t].Engaging? && s' == Move(s, t, Looping(s.pcs[t].why)).(bottleneck := true)
  }

  /** The waiting loop: sleep while others still run, else collect or return. */
  ghost predicate Loop(s: State, t: nat, s': State)
    requires t < |s.pcs|
  {
    && s.pcs[t].Looping?
    && var why := s.pcs[t].why;
       if s.bottleneck && s.waitCount < s.nThreads - 1 then
         s' == Move(s, t, Sleeping(why)).(owner := -1, waitCount := s.waitCount + 1)
       else if s.waitCount >= s.nThreads - 1 then s' == Move(s, t, Collecting(why))
       else s' == Move(s, t, Testing(why))
  }

  ghost predicate SemDown(s: State, t: nat, s': State)
    requires t < |s.pcs|
  {
    s.pcs[t].Sleeping? && s.sem > 0 && s' == Move(s, t, Woken(s.pcs[t].why)).(sem := s.sem - 1)
  }

  ghost predicate Reacquire(s: State, t: nat, s': State)
    requires t < |s.pcs|
  {
    && s.pcs[t].Woken? && s.owner == -1
    && s' == Move(s, t, Looping(s.pcs[t].why)).(owner := t, waitCount := s.waitCount - 1)
  }

  /** Alone: free the dead blocks, collect if asked to (which may enlarge the
      dead block buffer), and give every waiter a token. */
  ghost predicate Collect(s: State, t: nat, s': State)
    requires t < |s.pcs|
  {
    && s.pcs[t].Collecting?
    && (if s.needGC then s'.deadsz >= s.deadsz else s'.deadsz == s.deadsz)
    && s' == Move(s, t, Waking(s.pcs[t].why)).(
               freed := s.freed + s.deadBlocks, deadBlocks := [], deadsz := s'.deadsz, needGC := false,
               sem := s.sem + s.waitCount)
  }

  ghost predicate Release(s: State, t: nat, s': State)
    requires t < |s.pcs|
  {
    s.pcs[t].Waking? && s' == Move(s, t, Testing(s.pcs[t].why)).(bottleneck := false)
  }

  ghost predicate Step(s: State, t: nat, s': State)
    requires t < |s.pcs|
  {
    || Enter(s, t, s') || ReadFlag(s, t, s') || Make(s, t, s') || Pause(s, t, s') || Leave(s, t, s')
    || Acquire(s, t, s') || Test(s, t, s') || Engage(s, t, s') || Loop(s, t, s')
    || SemDown(s, t, s') || Reacquire(s, t, s') || Collect(s, t, s') || Release(s, t, s')
  }

  ghost predicate Next(s: State, s': State) {
    exists t: nat :: t < |s.pcs| && Step(s, t, s')
  }

  ghost predicate Init(s: State) {
    && (forall t :: 0 <= t < |s.pcs| ==> s.pcs[t] == Out)
    && s.owner == -1 && s.nThreads == 0 && s.waitCount == 0 && !s.bottleneck && !s.needGC && s.sem == 0
    && s.made == 0 && s.targets == [] && s.deadsz == 256 && s.deadBlocks == [] && s.freed == []
  }

  /** Finitely many steps from any state. */
  ghost predicate Path(path: seq<State>) {
    |path| > 0 && forall i :: 0 <= i < |path| - 1 ==> Next(path[i], path[i + 1])
  }

  /** A finite run of the threads. */
  ghost predicate Run(run: seq<State>) { Path(run) && Init(run[0]) }

  // ----- counting -----

  ghost function Count(pcs: seq<Pc>, q: Pc -> bool): nat {
    if pcs == [] then 0 else (if q(pcs[0]) then 1 else 0) + Count(pcs[1..], q)
  }

  lemma {:induction false} CountMove(pcs: seq<Pc>, t: nat, p: Pc, q: Pc -> bool)
    requires t < |pcs|
    ensures Count(pcs[t := p], q) == Count(pcs, q) - (if q(pcs[t]) then 1 else 0) + (if q(p) then 1 else 0)
  {
    if t == 0 {
      assert pcs[0 := p][1..] == pcs[1..];
    } else {
      assert pcs[t := p][1..] == pcs[1..][t - 1 := p];
      CountMove(pcs[1..], t - 1, p, q);
    }
  }

  lemma {:induction false} CountNone(pcs: seq<Pc>, q: Pc -> bool)
    ensures Count(pcs, q) == 0 <==> forall t :: 0 <= t < |pcs| ==> !q(pcs[t])
  {
    if pcs != [] {
      CountNone(pcs[1..], q);
      assert forall t :: 1 <= t < |pcs| ==> pcs[t] == pcs[1..][t - 1];
      assert forall t :: 0 <= t < |pcs| - 1 ==> pcs[1..][t] == pcs[t + 1];
    }
  }

  lemma {:induction false} CountBelow(pcs: seq<Pc>, q: Pc -> bool, r: Pc -> bool)
    requires forall p :: q(p) ==> r(p)
    ensures Count(pcs, q) <= Count(pcs, r)
  {
    if pcs != [] {
      CountBelow(pcs[1..], q, r);
    }
  }

  /** Two threads in `r` but not in `q` make a difference of two. */
  lemma {:induction false} CountGap(pcs: seq<Pc>, q: Pc -> bool, r: Pc -> bool, t: nat, u: nat)
    requires forall p :: q(p) ==> r(p)
    requires t < u < |pcs| && r(pcs[t]) && !q(pcs[t]) && r(pcs[u]) && !q(pcs[u])
    ensures Count(pcs, q) + 2 <= Count(pcs, r)
  {
    if t == 0 {
      CountOne(pcs[1..], q, r, u - 1);
    } else {
      CountGap(pcs[1..], q, r, t - 1, u - 1);
    }
  }

  lemma {:induction false} CountOne(pcs: seq<Pc>, q: Pc -> bool, r: Pc -> bool, t: nat)
    requires forall p :: q(p) ==> r(p)
    requires t < |pcs| && r(pcs[t]) && !q(pcs[t])
    ensures Count(pcs, q) + 1 <= Count(pcs, r)
  {
    if t == 0 {
      CountBelow(pcs[1..], q, r);
    } else {
      CountOne(pcs[1..], q, r, t - 1);
    }
  }

  lemma {:induction false} CountSum(pcs: seq<Pc>)
    ensures Count(pcs, Waits) == Count(pcs, Sleeps) + Count(pcs, IsWoken)
  {
    if pcs != [] {
      CountSum(pcs[1..]);
    }
  }

  // ----- the invariant -----

  ghost predicate LockOk(s: State) {
    forall t :: 0 <= t < |s.pcs| ==> (HoldsLock(s.pcs[t]) <==> s.owner == t)
  }

  ghost predicate OwnerOk(s: State) { -1 <= s.owner < |s.pcs| }

  ghost predicate CountsOk(s: State) {
    s.nThreads == Count(s.pcs, HoldsMod) && s.waitCount == Count(s.pcs, Waits) && s.sem >= 0
  }

  /** Who collects, or is waking the others, is the only holder not waiting. */
  ghost predicate AloneOk(s: State) {
    forall t :: 0 <= t < |s.pcs| && (s.pcs[t].Collecting? || s.pcs[t].Waking?) ==> s.waitCount >= s.nThreads - 1
  }

  ghost predicate TokensOk(s: State) {
    && (!s.bottleneck ==> s.sem >= Count(s.pcs, Sleeps))
    && (forall t :: 0 <= t < |s.pcs| && s.pcs[t].Waking? ==> s.sem >= Count(s.pcs, Sleeps))
    && (s.waitCount == s.nThreads > 0 ==> s.sem > 0 || Count(s.pcs, IsWoken) > 0)
  }

  ghost predicate Threads(s: State) { OwnerOk(s) && LockOk(s) && CountsOk(s) && AloneOk(s) && TokensOk(s) }

  /** Every block is in one place, and there once: in a target, in one thread's
      hand, in the dead block buffer, or freed. */
  ghost predicate BlocksOk(s: State) {
    ListsOk(s) && HandsOk(s) && forall b: nat :: b < s.made ==> Placed(s, b)
  }

  ghost predicate ListsOk(s: State) {
    && Distinct(s.targets) && Distinct(s.deadBlocks + s.freed) && |s.deadBlocks| <= s.deadsz && 0 < s.deadsz
    && (forall b :: b in s.targets ==> b < s.made && b !in s.deadBlocks && b !in s.freed)
    && (forall b :: b in s.deadBlocks || b in s.freed ==> b < s.made)
  }

  ghost predicate HandsOk(s: State) {
    && (forall t :: 0 <= t < |s.pcs| && Carries(s.pcs[t]) ==>
          var b := s.pcs[t].why.b; b < s.made && b !in s.targets && b !in s.deadBlocks && b !in s.freed)
    && (forall t, u :: 0 <= t < u < |s.pcs| && Carries(s.pcs[t]) && Carries(s.pcs[u]) ==>
          s.pcs[t].why.b != s.pcs[u].why.b)
  }

  ghost predicate Placed(s: State, b: nat) {
    b in s.targets || b in s.deadBlocks || b in s.freed || Held(s, b)
  }

  ghost predicate Held(s: State, b: nat) { exists t :: 0 <= t < |s.pcs| && InHand(s.pcs[t], b) }

  /** The reasons that can occur at each place. */
  predicate WhyOk(p: Pc, n: nat) {
    && (p.Wanting? ==> !p.why.Retire? && (p.why.Swap? ==> p.why.x < n))
    && (HoldsLock(p) || Waits(p) ==> !p.why.Swap?)
  }

  ghost predicate WhysOk(s: State) { forall t :: 0 <= t < |s.pcs| ==> WhyOk(s.pcs[t], |s.targets|) }

  ghost predicate Inv(s: State) { Threads(s) && BlocksOk(s) && WhysOk(s) }

  // ----- every step keeps it -----

  /** What moving one thread does to the four counts. */
  lemma CountsMove(pcs: seq<Pc>, t: nat, p: Pc)
    requires t < |pcs|
    ensures Count(pcs[t := p], HoldsMod) == Count(pcs, HoldsMod) - (if HoldsMod(pcs[t]) then 1 else 0)
        + (if HoldsMod(p) then 1 else 0)
    ensures Count(pcs[t := p], Waits) == Count(pcs, Waits) - (if Waits(pcs[t]) then 1 else 0)
        + (if Waits(p) then 1 else 0)
    ensures Count(pcs[t := p], Sleeps) == Count(pcs, Sleeps) - (if Sleeps(pcs[t]) then 1 else 0)
        + (if Sleeps(p) then 1 else 0)
    ensures Count(pcs[t := p], IsWoken) == Count(pcs, IsWoken) - (if IsWoken(pcs[t]) then 1 else 0)
        + (if IsWoken(p) then 1 else 0)
  {
    CountMove(pcs, t, p, HoldsMod);
    CountMove(pcs, t, p, Waits);
    CountMove(pcs, t, p, Sleeps);
    CountMove(pcs, t, p, IsWoken);
  }

  lemma EnterKeepsThreads(s: State, t: nat, s': State)
    requires t < |s.pcs| && Threads(s) && Enter(s, t, s')
    ensures Threads(s')
  {
    hide Count;
    CountBelow(s.pcs, Waits, HoldsMod);
    CountsMove(s.pcs, t, s'.pcs[t]);
  }

  lemma ReadFlagKeepsThreads(s: State, t: nat, s': State)
    requires t < |s.pcs| && Threads(s) && ReadFlag(s, t, s')
    ensures Threads(s')
  {
    hide Count;
    CountsMove(s.pcs, t, s'.pcs[t]);
  }

  lemma MakeKeepsThreads(s: State, t: nat, s': State)
    requires t < |s.pcs| && Threads(s) && Make(s, t, s')
    ensures Threads(s')
  {
    hide Count;
  }

  lemma PauseKeepsThreads(s: State, t: nat, s': State)
    requires t < |s.pcs| && Threads(s) && Pause(s, t, s')
    ensures Threads(s')
  {
    hide Count;
    CountsMove(s.pcs, t, s'.pcs[t]);
  }

  lemma LeaveKeepsThreads(s: State, t: nat, s': State)
    requires t < |s.pcs| && Threads(s) && Leave(s, t, s')
    ensures Threads(s')
  {
    hide Count;
    CountsMove(s.pcs, t, s'.pcs[t]);
  }

  /** Acquiring leads to the loop around bottleneck(), or right into it. */
  lemma AcquireGoes(s: State, t: nat, s': State)
    requires t < |s.pcs| && Acquire(s, t, s')
    ensures s.pcs[t].Wanting? && s.owner == -1 && t < |s'.pcs| && s'.pcs == s.pcs[t := s'.pcs[t]] && s'.owner == t
    ensures s'.nThreads == s.nThreads && s'.waitCount == s.waitCount && s'.bottleneck == s.bottleneck && s'.sem == s.sem
    ensures s'.pcs[t].Testing? || s'.pcs[t].Engaging?
  {
  }

  lemma AcquireKeepsThreads(s: State, t: nat, s': State)
    requires t < |s.pcs| && Threads(s) && Acquire(s, t, s')
    ensures Threads(s')
  {
    hide Count, Acquire;
    AcquireGoes(s, t, s');
    CountsMove(s.pcs, t, s'.pcs[t]);
  }

  /** Testing leads into the bottleneck, or out with the lock released. */
  lemma TestGoes(s: State, t: nat, s': State)
    requires t < |s.pcs| && Test(s, t, s')
    ensures s.pcs[t].Testing? && t < |s'.pcs| && s'.pcs == s.pcs[t := s'.pcs[t]]
    ensures s'.nThreads == s.nThreads && s'.waitCount == s.waitCount && s'.bottleneck == s.bottleneck && s'.sem == s.sem
    ensures (s'.pcs[t].Engaging? && s'.owner == s.owner) || (s'.pcs[t] == Running && s'.owner == -1)
  {
  }

  lemma TestKeepsThreads(s: State, t: nat, s': State)
    requires t < |s.pcs| && Threads(s) && Test(s, t, s')
    ensures Threads(s')
  {
    hide Count, Test;
    TestGoes(s, t, s');
    CountsMove(s.pcs, t, s'.pcs[t]);
  }

  lemma EngageKeepsThreads(s: State, t: nat, s': State)
    requires t < |s.pcs| && Threads(s) && Engage(s, t, s')
    ensures Threads(s')
  {
    hide Count;
    CountsMove(s.pcs, t, s'.pcs[t]);
  }

  lemma LoopKeepsThreads(s: State, t: nat, s': State)
    requires t < |s.pcs| && Threads(s) && Loop(s, t, s')
    ensures Threads(s')
  {
    hide Count;
    CountsMove(s.pcs, t, s'.pcs[t]);
  }

  lemma SemDownKeepsThreads(s: State, t: nat, s': State)
    requires t < |s.pcs| && Threads(s) && SemDown(s, t, s')
    ensures Threads(s')
  {
    hide Count;
    CountsMove(s.pcs, t, s'.pcs[t]);
  }

  lemma ReacquireKeepsThreads(s: State, t: nat, s': State)
    requires t < |s.pcs| && Threads(s) && Reacquire(s, t, s')
    ensures Threads(s')
  {
    hide Count;
    CountBelow(s.pcs, Waits, HoldsMod);
    CountsMove(s.pcs, t, s'.pcs[t]);
  }

  lemma CollectKeepsThreads(s: State, t: nat, s': State)
    requires t < |s.pcs| && Threads(s) && Collect(s, t, s')
    ensures Threads(s')
  {
    hide Count;
    CountsMove(s.pcs, t, s'.pcs[t]);
    CountSum(s.pcs);
  }

  lemma ReleaseKeepsThreads(s: State, t: nat, s': State)
    requires t < |s.pcs| && Threads(s) && Release(s, t, s')
    ensures Threads(s')
  {
    hide Count;
    CountsMove(s.pcs, t, s'.pcs[t]);
  }

  lemma StepKeepsThreads(s: State, t: nat, s': State)
    requires t < |s.pcs| && Threads(s) && Step(s, t, s')
    ensures Threads(s')
  {
    hide Threads, Enter, ReadFlag, Make, Pause, Leave, Acquire, Test, Engage, Loop, SemDown, Reacquire,
        Collect, Release;
    if Enter(s, t, s') {
      EnterKeepsThreads(s, t, s');
    } else if ReadFlag(s, t, s') {
      ReadFlagKeepsThreads(s, t, s');
    } else if Make(s, t, s') {
      MakeKeepsThreads(s, t, s');
    } else if Pause(s, t, s') {
      PauseKeepsThreads(s, t, s');
    } else if Leave(s, t, s') {
      LeaveKeepsThreads(s, t, s');
    } else if Acquire(s, t, s') {
      AcquireKeepsThreads(s, t, s');
    } else if Test(s, t, s') {
      TestKeepsThreads(s, t, s');
    } else if Engage(s, t, s') {
      EngageKeepsThreads(s, t, s');
    } else if Loop(s, t, s') {
      LoopKeepsThreads(s, t, s');
    } else if SemDown(s, t, s') {
      SemDownKeepsThreads(s, t, s');
    } else if Reacquire(s, t, s') {
      ReacquireKeepsThreads(s, t, s');
    } else if Collect(s, t, s') {
      CollectKeepsThreads(s, t, s');
    } else {
      ReleaseKeepsThreads(s, t, s');
    }
  }

  /** Whoever collects is alone: every other mod-lock holder is asleep or waiting
      for the lock it gave up to sleep. */
  lemma CollectorIsAlone(s: State, t: nat, u: nat)
    requires Threads(s) && t < |s.pcs| && u < |s.pcs| && t != u
    requires s.pcs[t].Collecting? || s.pcs[t].Waking?
    ensures HoldsMod(s.pcs[u]) ==> Waits(s.pcs[u])
  {
    if HoldsMod(s.pcs[u]) && !Waits(s.pcs[u]) {
      CountGap(s.pcs, Waits, HoldsMod, if t < u then t else u, if t < u then u else t);
    }
  }

  // ----- blocks -----

  /** A step that moves no block and leaves the thread's hand as it was. */
  lemma SameBlocks(s: State, t: nat, s': State)
    requires t < |s.pcs| && t < |s'.pcs| && s'.pcs == s.pcs[t := s'.pcs[t]]
    requires SameHand(s.pcs[t], s'.pcs[t])
    requires s'.targets == s.targets && s'.deadBlocks == s.deadBlocks && s'.freed == s.freed && s'.deadsz == s.deadsz
    requires s'.made == s.made && BlocksOk(s)
    ensures BlocksOk(s')
  {
    hide Distinct;
    forall b: nat | b < s'.made
      ensures Placed(s', b)
    {
      StillPlaced(s, t, s', b);
    }
  }

  lemma StillPlaced(s: State, t: nat, s': State, b: nat)
    requires t < |s.pcs| && t < |s'.pcs| && s'.pcs == s.pcs[t := s'.pcs[t]]
    requires InHand(s.pcs[t], b) ==> InHand(s'.pcs[t], b)
    ensures Placed(s, b) ==> b in s.targets || b in s.deadBlocks || b in s.freed || Held(s', b)
  {
    if Held(s, b) {
      var u :| 0 <= u < |s.pcs| && InHand(s.pcs[u], b);
      assert InHand(s'.pcs[u], b);
    }
  }

  lemma MakeKeepsBlocks(s: State, t: nat, s': State)
    requires t < |s.pcs| && BlocksOk(s) && Make(s, t, s')
    ensures BlocksOk(s')
  {
    Inserted(s.targets, s.made, []);
    assert s.targets + [] == s.targets && s'.targets + [] == s'.targets;
    assert s'.targets[|s.targets|] == s.made;
    assert forall b :: b in s.targets ==> b in s'.targets;
    forall b: nat | b < s'.made
      ensures Placed(s', b)
    {
      StillPlaced(s, t, s', b);
    }
  }

  lemma Replaced(xs: seq<nat>, x: nat, b: nat)
    requires x < |xs| && Distinct(xs) && b !in xs
    ensures Distinct(xs[x := b])
    ensures forall a :: a in xs[x := b] <==> a == b || (a in xs && a != xs[x])
  {
    forall a | a == b || (a in xs && a != xs[x])
      ensures a in xs[x := b]
    {
      if a == b {
        assert xs[x := b][x] == b;
      } else {
        var y :| 0 <= y < |xs| && xs[y] == a;
        assert xs[x := b][y] == a;
      }
    }
  }

  /** The replaced block leaves its target, and a new one takes its place. */
  lemma SwapKeepsLists(s: State, t: nat, x: nat)
    requires t < |s.pcs| && x < |s.targets| && ListsOk(s)
    ensures ListsOk(Swapped(s, t, x))
    ensures forall b :: b in Swapped(s, t, x).targets <==> b == s.made || (b in s.targets && b != s.targets[x])
  {
    hide Distinct;
    Replaced(s.targets, x, s.made);
    var s' := Swapped(s, t, x);
    forall b | b in s'.targets
      ensures b < s'.made && b !in s'.deadBlocks && b !in s'.freed
    {
      assert b == s.made || b in s.targets;
    }
  }

  /** It is then in the hand of the thread alone. */
  lemma SwapKeepsHands(s: State, t: nat, x: nat)
    requires t < |s.pcs| && x < |s.targets| && BlocksOk(s) && !Carries(s.pcs[t])
    ensures HandsOk(Swapped(s, t, x))
  {
    hide Distinct;
    SwapKeepsLists(s, t, x);
    var s' := Swapped(s, t, x);
    hide Swapped;
    assert s.targets[x] in s.targets;
  }

  lemma SwapKeepsBlocks(s: State, t: nat, x: nat)
    requires t < |s.pcs| && x < |s.targets| && BlocksOk(s) && !Carries(s.pcs[t])
    ensures BlocksOk(Swapped(s, t, x))
  {
    SwapKeepsLists(s, t, x);
    SwapKeepsHands(s, t, x);
    hide Distinct, ListsOk, HandsOk;
    var s' := Swapped(s, t, x);
    assert InHand(s'.pcs[t], s.targets[x]) && Held(s', s.targets[x]);
    forall b: nat | b < s'.made
      ensures Placed(s', b)
    {
      StillPlaced(s, t, s', b);
    }
  }

  lemma AcquireKeepsBlocks(s: State, t: nat, s': State)
    requires t < |s.pcs| && BlocksOk(s) && Acquire(s, t, s')
    ensures BlocksOk(s')
  {
    hide BlocksOk;
    if s.pcs[t].why.Swap? {
      hide Swapped;
      SwapKeepsBlocks(s, t, s.pcs[t].why.x);
    } else {
      SameBlocks(s, t, s');
    }
  }

  /** A thread hands its replaced block over to the buffer. */
  lemma HandOver(s: State, t: nat, s': State, b0: nat)
    requires t < |s.pcs| && BlocksOk(s) && InHand(s.pcs[t], b0) && |s.deadBlocks| < s.deadsz
    requires s' == Move(s, t, Running).(owner := -1, deadBlocks := s.deadBlocks + [b0])
    ensures BlocksOk(s')
  {
    hide Distinct;
    Inserted(s.deadBlocks, b0, s.freed);
    assert s'.deadBlocks + s'.freed == s.deadBlocks + [b0] + s.freed;
    assert s'.deadBlocks[|s.deadBlocks|] == b0;
    forall b: nat | b < s'.made
      ensures Placed(s', b)
    {
      if b != b0 {
        StillPlaced(s, t, s', b);
      }
    }
  }

  lemma TestKeepsBlocks(s: State, t: nat, s': State)
    requires t < |s.pcs| && BlocksOk(s) && Test(s, t, s')
    ensures BlocksOk(s')
  {
    hide BlocksOk;
    if s.pcs[t].why.Retire? && |s.deadBlocks| < s.deadsz {
      assert InHand(s.pcs[t], s.pcs[t].why.b);
      HandOver(s, t, s', s.pcs[t].why.b);
    } else {
      SameBlocks(s, t, s');
    }
  }

  lemma Inserted(xs: seq<nat>, b: nat, ys: seq<nat>)
    requires Distinct(xs + ys) && b !in xs && b !in ys
    ensures Distinct(xs + [b] + ys)
  {
    var zs := xs + [b] + ys;
    forall i, j | 0 <= i < j < |zs|
      ensures zs[i] != zs[j]
    {
      var n := |xs|;
      if i != n && j != n {
        var i0, j0 := if i < n then i else i - 1, if j < n then j else j - 1;
        assert (xs + ys)[i0] == zs[i] && (xs + ys)[j0] == zs[j];
      } else if i == n {
        assert zs[j] == ys[j - n - 1];
      } else {
        assert zs[i] == xs[i];
      }
    }
  }

  lemma CollectKeepsBlocks(s: State, t: nat, s': State)
    requires t < |s.pcs| && BlocksOk(s) && Collect(s, t, s')
    ensures BlocksOk(s')
  {
    Exchanged(s.deadBlocks, s.freed);
    assert s'.deadBlocks + s'.freed == s.freed + s.deadBlocks;
    forall b: nat | b < s'.made
      ensures Placed(s', b)
    {
      StillPlaced(s, t, s', b);
    }
  }

  lemma Exchanged(xs: seq<nat>, ys: seq<nat>)
    requires Distinct(xs + ys)
    ensures Distinct(ys + xs)
  {
    forall i, j | 0 <= i < j < |ys + xs|
      ensures (ys + xs)[i] != (ys + xs)[j]
    {
      var i0 := if i < |ys| then |xs| + i else i - |ys|;
      var j0 := if j < |ys| then |xs| + j else j - |ys|;
      assert (xs + ys)[i0] == (ys + xs)[i] && (xs + ys)[j0] == (ys + xs)[j];
    }
  }

  /** Every step keeps each block in one place. */
  lemma StepKeepsBlocks(s: State, t: nat, s': State)
    requires t < |s.pcs| && BlocksOk(s) && WhysOk(s) && Step(s, t, s')
    ensures BlocksOk(s')
  {
    hide BlocksOk, Acquire, Test, Collect, Make;
    if Acquire(s, t, s') {
      AcquireKeepsBlocks(s, t, s');
    } else if Test(s, t, s') {
      TestKeepsBlocks(s, t, s');
    } else if Collect(s, t, s') {
      CollectKeepsBlocks(s, t, s');
    } else if Make(s, t, s') {
      MakeKeepsBlocks(s, t, s');
    } else {
      QuietStep(s, t, s');
      SameBlocks(s, t, s');
    }
  }

  /** The other steps leave the blocks and the threads' hands alone. */
  lemma QuietStep(s: State, t: nat, s': State)
    requires t < |s.pcs| && WhysOk(s)
    requires || Enter(s, t, s') || ReadFlag(s, t, s') || Pause(s, t, s') || Leave(s, t, s')
             || Engage(s, t, s') || Loop(s, t, s') || SemDown(s, t, s') || Reacquire(s, t, s') || Release(s, t, s')
    ensures t < |s'.pcs| && s'.pcs == s.pcs[t := s'.pcs[t]]
    ensures SameHand(s.pcs[t], s'.pcs[t])
    ensures s'.targets == s.targets && s'.deadBlocks == s.deadBlocks && s'.freed == s.freed && s'.deadsz == s.deadsz
    ensures s'.made == s.made
  {
    hide WhysOk;
  }

  // ----- what a step moves -----

  /** A step moves one thread, to a place with a reason that fits; targets are
      added and never taken away; blocks are freed by collecting alone. */
  lemma StepMoves(s: State, t: nat, s': State)
    requires t < |s.pcs| && WhyOk(s.pcs[t], |s.targets|) && Step(s, t, s')
    ensures t < |s'.pcs| && s'.pcs == s.pcs[t := s'.pcs[t]]
    ensures |s'.targets| >= |s.targets| && WhyOk(s'.pcs[t], |s'.targets|)
    ensures !s.pcs[t].Collecting? ==> s'.freed == s.freed
  {
    hide Enter, ReadFlag, Make, Pause, Leave, Acquire, Test, Engage, Loop, SemDown, Reacquire, Collect, Release, WhyOk;
    if Enter(s, t, s') || ReadFlag(s, t, s') || Make(s, t, s') || Pause(s, t, s') || Leave(s, t, s') {
      OpenMoves(s, t, s');
    } else if Acquire(s, t, s') || Test(s, t, s') {
      CallMoves(s, t, s');
    } else {
      LockedMoves(s, t, s');
    }
  }

  lemma OpenMoves(s: State, t: nat, s': State)
    requires t < |s.pcs| && WhyOk(s.pcs[t], |s.targets|)
    requires Enter(s, t, s') || ReadFlag(s, t, s') || Make(s, t, s') || Pause(s, t, s') || Leave(s, t, s')
    ensures t < |s'.pcs| && s'.pcs == s.pcs[t := s'.pcs[t]] && s'.freed == s.freed
    ensures |s'.targets| >= |s.targets| && WhyOk(s'.pcs[t], |s'.targets|)
  {
  }

  lemma CallMoves(s: State, t: nat, s': State)
    requires t < |s.pcs| && WhyOk(s.pcs[t], |s.targets|) && (Acquire(s, t, s') || Test(s, t, s'))
    ensures t < |s'.pcs| && s'.pcs == s.pcs[t := s'.pcs[t]] && s'.freed == s.freed
    ensures |s'.targets| == |s.targets| && WhyOk(s'.pcs[t], |s'.targets|)
  {
  }

  lemma LockedMoves(s: State, t: nat, s': State)
    requires t < |s.pcs| && WhyOk(s.pcs[t], |s.targets|)
    requires || Engage(s, t, s') || Loop(s, t, s') || SemDown(s, t, s') || Reacquire(s, t, s') || Collect(s, t, s')
             || Release(s, t, s')
    ensures t < |s'.pcs| && s'.pcs == s.pcs[t := s'.pcs[t]] && s'.targets == s.targets
    ensures WhyOk(s'.pcs[t], |s'.targets|) && (!s.pcs[t].Collecting? ==> s'.freed == s.freed)
  {
  }

  lemma StepKeepsWhys(s: State, t: nat, s': State)
    requires t < |s.pcs| && WhysOk(s) && Step(s, t, s')
    ensures WhysOk(s')
  {
    hide Step;
    StepMoves(s, t, s');
  }

  lemma StepKeepsInv(s: State, t: nat, s': State)
    requires t < |s.pcs| && Inv(s) && Step(s, t, s')
    ensures Inv(s')
  {
    hide Threads, BlocksOk, WhysOk, Step;
    StepKeepsThreads(s, t, s');
    StepKeepsBlocks(s, t, s');
    StepKeepsWhys(s, t, s');
  }

  lemma InitInv(s: State)
    requires Init(s)
    ensures Inv(s)
  {
    CountNone(s.pcs, HoldsMod);
    CountNone(s.pcs, Waits);
    CountNone(s.pcs, Sleeps);
  }
}
