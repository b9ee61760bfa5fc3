/**
 Runs of the mutex calls: when they deadlock, and what becomes of exact priority
 inheritance when they do.

 A thread on no cycle of the wait-for graph has its exact priority in every
 state. Threads that wait for each other in a cycle keep theirs too, except that
 a waiter outside the cycle may give up and leave behind a priority that nobody
 blocked on the cycle has any more.
 */
module InheritanceRuns {
  import opened Wrappers
  import opened Sequences
  import opened WaitGraph
  import opened PriorityInheritance

  datatype Call = TakeCall(t: Tid, m: Mid, timeout: int) | ReleaseCall(t: Tid, m: Mid) | GiveUpCall(u: Tid)
                | SleepCall(t: Tid, asleep: bool)

  // ----- what one call does

  /** `t` has to wait for the owner of `m`. */
  ghost predicate Blocks(s: State, t: Tid, m: Mid, timeout: int) {
    CanCall(s, t, m) && s.mutexes[m].owner.Some? && s.mutexes[m].owner != Some(t) && timeout != 0
  }

  ghost predicate DidBlock(s: State, t: Tid, m: Mid, k: nat, s': State) {
    && CanSuspend(s, t, m, k)
    && Walked(Suspended(s, t, m, k), s', Raise(s.mutexes[m].owner.value, s.threads[t].cur), None)
  }

  ghost predicate DidTake(s: State, t: Tid, m: Mid, timeout: int, s': State)
    requires CanCall(s, t, m)
  {
    if Blocks(s, t, m, timeout) then exists k: nat :: DidBlock(s, t, m, k, s')
    else if s.mutexes[m].owner.None? then s' == Acquired(s, t, m)
    else if s.mutexes[m].owner == Some(t) && s.mutexes[m].hold < HOLD_MAX then s' == Rehold(s, m, s.mutexes[m].hold + 1)
    else s' == s
  }

  ghost predicate DidRelease(s: State, t: Tid, m: Mid, s': State)
    requires CanCall(s, t, m)
  {
    if s.mutexes[m].owner != Some(t) then s' == s
    else if s.mutexes[m].hold > 1 then s' == Rehold(s, m, s.mutexes[m].hold - 1)
    else t in s'.threads && CanRelease(s, t, m, s'.threads[t].cur) && s' == Released(s, t, m, s'.threads[t].cur)
  }

  ghost predicate Waiting(s: State, u: Tid) {
    u in s.threads && s.threads[u].pending.Some?
  }

  ghost predicate DidDrop(s: State, u: Tid, s': State)
    requires Waiting(s, u)
  {
    var m := s.threads[u].pending.value;
    && CanDrop(s, u, m)
    && Walked(Dropped(s, u, m), s', Lower(s.mutexes[m].owner.value), None)
  }

  /** The effect of a call; one by a thread that cannot make it has none. */
  ghost predicate Did(s: State, call: Call, s': State) {
    match call
    case TakeCall(t, m, timeout) => if CanCall(s, t, m) then DidTake(s, t, m, timeout, s') else s' == s
    case ReleaseCall(t, m) => if CanCall(s, t, m) then DidRelease(s, t, m, s') else s' == s
    case GiveUpCall(u) => if Waiting(s, u) then DidDrop(s, u, s') else s' == s
    case SleepCall(t, asleep) => if t in s.threads && s.threads[t].pending.None? then s' == Slept(s, t, asleep) else s' == s
  }

  // ----- deadlock

  /** The call makes a thread wait for one that already waits for it, directly or not. */
  ghost predicate ClosesCycle(s: State, call: Call) {
    && call.TakeCall? && Blocks(s, call.t, call.m, call.timeout)
    && Reaches(WaitsFor(s), s.mutexes[call.m].owner.value, call.t)
  }

  lemma BlockGraph(s: State, t: Tid, m: Mid, k: nat, s': State)
    requires DidBlock(s, t, m, k, s')
    ensures t !in WaitsFor(s) && WaitsFor(s') == WaitsFor(s)[t := s.mutexes[m].owner.value]
  {
    SuspendedGraph(s, t, m, k);
    OnlyPrioritiesKeepsGraph(Suspended(s, t, m, k), s');
  }

  lemma DropGraph(s: State, u: Tid, s': State)
    requires Waiting(s, u) && DidDrop(s, u, s')
    ensures WaitsFor(s') == WaitsFor(s) - {u}
  {
    DroppedGraph(s, u, s.threads[u].pending.value);
    OnlyPrioritiesKeepsGraph(Dropped(s, u, s.threads[u].pending.value), s');
  }

  /** A call that neither blocks, gives up nor gives a mutex away leaves the waits and the priorities as they are. */
  ghost predicate Idle(s: State, call: Call) {
    match call
    case TakeCall(t, m, timeout) => !Blocks(s, t, m, timeout)
    case ReleaseCall(t, m) => CanCall(s, t, m) && s.mutexes[m].owner == Some(t) ==> s.mutexes[m].hold > 1
    case GiveUpCall(u) => !Waiting(s, u)
    case SleepCall(t, asleep) => true
  }

  /** The waits, and all priorities, are the same. */
  ghost predicate SameWaits(s: State, s': State) {
    && WaitsFor(s') == WaitsFor(s)
    && s'.threads.Keys == s.threads.Keys
    && (forall t :: t in s.threads ==> s'.threads[t].cur == s.threads[t].cur && s'.threads[t].init == s.threads[t].init)
  }

  lemma AcquiredWaits(s: State, t: Tid, m: Mid)
    requires Inv(s) && CanCall(s, t, m) && s.mutexes[m].owner.None?
    ensures SameWaits(s, Acquired(s, t, m))
  {
    AcquiredGraph(s, t, m);
    hide Inv, WaitsFor;
  }

  lemma ReholdWaits(s: State, m: Mid, h: nat)
    requires Inv(s) && m in s.mutexes && s.mutexes[m].owner.Some? && 0 < h <= HOLD_MAX
    ensures SameWaits(s, Rehold(s, m, h))
  {
    HoldChangeKeepsInv(s, m, h);
    hide Inv, WaitsFor;
  }

  lemma SleptWaits(s: State, t: Tid, asleep: bool)
    requires t in s.threads
    ensures SameWaits(s, Slept(s, t, asleep))
  {
    SleptGraph(s, t, asleep);
    hide WaitsFor;
  }

  lemma IdleGraph(s: State, call: Call, s': State)
    requires Inv(s) && Did(s, call, s') && Idle(s, call)
    ensures SameWaits(s, s')
  {
    hide Inv, WaitsFor, Acquired, Rehold, Slept;
    match call
    case TakeCall(t, m, timeout) =>
      if CanCall(s, t, m) {
        if s.mutexes[m].owner.None? {
          AcquiredWaits(s, t, m);
        } else if s.mutexes[m].owner == Some(t) && s.mutexes[m].hold < HOLD_MAX {
          ReholdWaits(s, m, s.mutexes[m].hold + 1);
        }
      }
    case ReleaseCall(t, m) =>
      if CanCall(s, t, m) && s.mutexes[m].owner == Some(t) {
        HoldInRange(s, m);
        ReholdWaits(s, m, s.mutexes[m].hold - 1);
      }
    case GiveUpCall(u) =>
    case SleepCall(t, asleep) =>
      if t in s.threads {
        SleptWaits(s, t, asleep);
      }
  }

  lemma HoldInRange(s: State, m: Mid)
    requires Inv(s) && m in s.mutexes
    ensures s.mutexes[m].hold <= HOLD_MAX
  {
    assert MutexLinked(s, m);
  }

  /** A call deadlocks exactly when it makes a thread wait for one that waits for it. */
  lemma DeadlockStep(s: State, call: Call, s': State)
    requires Inv(s) && Did(s, call, s')
    ensures Acyclic(WaitsFor(s)) ==> (Acyclic(WaitsFor(s')) <==> !ClosesCycle(s, call))
  {
    if Idle(s, call) {
      IdleGraph(s, call, s');
    } else {
      match call
      case TakeCall(t, m, timeout) =>
        var k: nat :| DidBlock(s, t, m, k, s');
        BlockGraph(s, t, m, k, s');
        NewEdgeClosesCycleIff(WaitsFor(s), t, s.mutexes[m].owner.value);
      case ReleaseCall(t, m) =>
        ReleasedAcyclic(s, t, m, s'.threads[t].cur);
      case GiveUpCall(u) =>
        DropGraph(s, u, s');
        if Acyclic(WaitsFor(s)) {
          NewEdgesIntoSinksKeepAcyclic(WaitsFor(s), WaitsFor(s'));
        }
    }
  }

  // ----- exactness

  ghost predicate AllExact(s: State) {
    forall t :: t in s.threads ==> Exact(s, t)
  }

  /** `u` gives up, `t` is on a cycle, and nobody still blocked on `t` has the initial priority `t` runs at. */
  ghost predicate LosesSource(s: State, call: Call, t: Tid)
    requires t in s.threads
  {
    && call.GiveUpCall? && Waiting(s, call.u)
    && OnCycle(WaitsFor(s) - {call.u}, t)
    && !SourceRemains(s, call.u, t)
  }

  ghost predicate SourceRemains(s: State, u: Tid, t: Tid)
    requires t in s.threads
  {
    exists v :: v in StillBlocked(s, u, t) && s.threads[v].init == s.threads[t].cur
  }

  /** The threads blocked on `t` once `u` waits no more. */
  ghost function StillBlocked(s: State, u: Tid, t: Tid): set<Tid> {
    Ancestors(WaitsFor(s) - {u}, s.threads.Keys, t)
  }

  /** After a waiter has given up, `t` has its exact priority if and only if it has not lost the source of it. */
  lemma DropExactIff(s: State, u: Tid, s': State, t: Tid)
    requires Inv(s) && Inv(s') && Waiting(s, u) && DidDrop(s, u, s') && t in s.threads
    ensures t in s'.threads && (Exact(s', t) <==> !LosesSource(s, GiveUpCall(u), t))
  {
    DropGraph(s, u, s');
    ExactIff(s', t);
    DropKeepsThreads(s, u, s');
    hide Inv, Exact, Dropped, WaitsFor, DidDrop, OnCycle, HasSource, SourceRemains;
    if OnCycle(WaitsFor(s'), t) {
      DropKeepsCycle(s, u, s', t);
      SameSources(s, u, s', t);
    } else {
      ExactAt(s', t);
    }
  }

  lemma SameSources(s: State, u: Tid, s': State, t: Tid)
    requires WaitsFor(s') == WaitsFor(s) - {u} && t in s.threads && t in s'.threads
    requires s'.threads.Keys == s.threads.Keys && forall v :: v in s.threads ==> s'.threads[v].init == s.threads[v].init
    requires s'.threads[t].cur == s.threads[t].cur
    ensures HasSource(s', t) <==> SourceRemains(s, u, t)
  {
    hide Reaches, WaitsFor;
    assert BlockedOn(s', t) == StillBlocked(s, u, t);
  }

  lemma DropKeepsThreads(s: State, u: Tid, s': State)
    requires Waiting(s, u) && DidDrop(s, u, s')
    ensures s'.threads.Keys == s.threads.Keys && forall t :: t in s.threads ==> s'.threads[t].init == s.threads[t].init
  {
    hide Inv, MovedBy, Reenters, CyclesKept, CyclesEven;
  }

  lemma DropKeepsCycle(s: State, u: Tid, s': State, t: Tid)
    requires Inv(s) && Waiting(s, u) && DidDrop(s, u, s') && t in s.threads && t in s'.threads
    requires OnCycle(WaitsFor(s'), t)
    ensures s'.threads[t].cur == s.threads[t].cur
  {
    DroppedEven(s, u);
    DropGraph(s, u, s');
    DroppedGraph(s, u, s.threads[u].pending.value);
    hide Inv, MovedBy, Reenters, CyclesEven, OnCycle, WaitsFor;
  }

  lemma DroppedEven(s: State, u: Tid)
    requires Inv(s) && Waiting(s, u) && CanDrop(s, u, s.threads[u].pending.value)
    ensures CyclesEven(Dropped(s, u, s.threads[u].pending.value))
  {
    var s1 := Dropped(s, u, s.threads[u].pending.value);
    var g, g1 := WaitsFor(s), WaitsFor(s1);
    DroppedGraph(s, u, s.threads[u].pending.value);
    FixpointIsEven(s);
    forall w | w in s1.threads && OnCycle(g1, w) && w in g1 && g1[w] in s1.threads
      ensures s1.threads[g1[w]].cur == s1.threads[w].cur
    {
      CycleInLargerGraph(g1, g, w);
    }
  }

  lemma BlockedSource(s: State, t: Tid, m: Mid, k: nat, s': State, v: Tid)
    requires Inv(s) && DidBlock(s, t, m, k, s') && v in s.threads && v in s'.threads
    requires s'.threads[v].cur == s.threads[v].cur && HasSource(s, v)
    ensures HasSource(s', v)
  {
    BlockGraph(s, t, m, k, s');
    var u :| u in BlockedOn(s, v) && s.threads[u].init == s.threads[v].cur;
    var n: nat :| Chain(WaitsFor(s), u, n) == Some(v);
    ChainInLargerGraph(WaitsFor(s), WaitsFor(s'), u, n);
    assert u in BlockedOn(s', v);
  }

  /** Blocking keeps all exact priorities, even if it deadlocks: who becomes more urgent has it from the taker. */
  lemma BlockKeepsExact(s: State, t: Tid, m: Mid, k: nat, s': State, v: Tid)
    requires Inv(s) && Inv(s') && DidBlock(s, t, m, k, s') && v in s.threads && Exact(s, v)
    ensures v in s'.threads && Exact(s', v)
  {
    var s1, w := Suspended(s, t, m, k), Raise(s.mutexes[m].owner.value, s.threads[t].cur);
    BlockGraph(s, t, m, k, s');
    SuspendedGraph(s, t, m, k);
    assert MovedBy(s1, s', w, v) && MovedBy(s1, s', w, t);
    ExactIff(s, v);
    ExactIff(s', v);
    if s'.threads[v].cur == s.threads[v].cur {
      BlockedSource(s, t, m, k, s', v);
    } else {
      if OnCycle(WaitsFor(s), t) {
        CycleSuccessor(WaitsFor(s), t);
      }
      ExactAt(s, t);
      ExactIff(s, t);
      BlockedSource(s, t, m, k, s', t);
      EdgeReaches(WaitsFor(s'), t, v);
      var u :| u in BlockedOn(s', t) && s'.threads[u].init == s'.threads[t].cur;
      ReachesTransitive(WaitsFor(s'), u, t, v);
      assert u in BlockedOn(s', v);
    }
  }

  /** A release moves only waits for the running thread, which is on no cycle. */
  lemma ReleaseKeepsExact(s: State, t: Tid, m: Mid, p: nat, v: Tid)
    requires CanRelease(s, t, m, p) && Inv(Released(s, t, m, p)) && v in s.threads && Exact(s, v)
    ensures v in Released(s, t, m, p).threads && Exact(Released(s, t, m, p), v)
  {
    var s' := Released(s, t, m, p);
    if OnCycle(WaitsFor(s'), v) {
      ExactIff(s, v);
      ExactIff(s', v);
      ReleaseKeepsSource(s, t, m, p, v);
    } else {
      ExactAt(s', v);
    }
  }

  lemma ReleaseKeepsSource(s: State, t: Tid, m: Mid, p: nat, v: Tid)
    requires CanRelease(s, t, m, p) && v in s.threads && HasSource(s, v)
    requires v in Released(s, t, m, p).threads && OnCycle(WaitsFor(Released(s, t, m, p)), v)
    ensures HasSource(Released(s, t, m, p), v)
  {
    hide WaitsFor, OnCycle, Reaches, IsDueOnRelease, Chain;
    var s' := Released(s, t, m, p);
    var g, g' := WaitsFor(s), WaitsFor(s');
    ReleasedEdges(s, t, m, p);
    CycleAvoidsSinks(g, g', v);
    CycleSuccessor(g, v);
    var u :| u in BlockedOn(s, v) && s.threads[u].init == s.threads[v].cur;
    ReachesAvoidsSinks(g', g, u, v);
    assert u in BlockedOn(s', v);
  }

  lemma ReleasedEdges(s: State, t: Tid, m: Mid, p: nat)
    requires CanRelease(s, t, m, p)
    ensures var g, g' := WaitsFor(s), WaitsFor(Released(s, t, m, p));
      && t !in g
      && (forall u :: u in g' ==> (u in g && g[u] == g'[u]) || g'[u] !in g')
      && (forall u :: u in g ==> (u in g' && g'[u] == g[u]) || g[u] !in g)
  {
    var g, g' := WaitsFor(s), WaitsFor(Released(s, t, m, p));
    forall u | u in g'
      ensures (u in g && g[u] == g'[u]) || g'[u] !in g'
    {
      ReleasedEdge(s, t, m, p, u);
      ReleasedEdge(s, t, m, p, g'[u]);
    }
    forall u | u in g
      ensures (u in g' && g'[u] == g[u]) || g[u] !in g
    {
      ReleasedEdge(s, t, m, p, u);
      assert MutexLinked(s, m);
    }
  }

  lemma IdleKeepsExact(s: State, call: Call, s': State, v: Tid)
    requires Inv(s) && Inv(s') && Did(s, call, s') && Idle(s, call) && v in s.threads && Exact(s, v)
    ensures v in s'.threads && Exact(s', v)
  {
    IdleGraph(s, call, s');
    hide Inv, Did, Idle, WaitsFor, Exact;
    ExactIff(s, v);
    ExactIff(s', v);
  }

  /** An exact priority is lost only by giving up, and exactly when that takes the source of a cycle away. */
  lemma ExactStep(s: State, call: Call, s': State, t: Tid)
    requires Inv(s) && Inv(s') && Did(s, call, s') && t in s.threads && Exact(s, t)
    ensures t in s'.threads && (Exact(s', t) <==> !LosesSource(s, call, t))
  {
    if Idle(s, call) {
      IdleKeepsExact(s, call, s', t);
    } else {
      match call
      case TakeCall(u, m, timeout) =>
        var k: nat :| DidBlock(s, u, m, k, s');
        BlockKeepsExact(s, u, m, k, s', t);
      case ReleaseCall(u, m) =>
        ReleaseKeepsExact(s, u, m, s'.threads[u].cur, t);
      case GiveUpCall(u) =>
        DropExactIff(s, u, s', t);
    }
  }

  lemma DidKeepsThreads(s: State, call: Call, s': State)
    requires Inv(s) && Did(s, call, s')
    ensures s'.threads.Keys == s.threads.Keys
  {
    if Idle(s, call) {
      IdleGraph(s, call, s');
    }
  }

  // ----- a deadlock that is exact until its source gives up

  /**
   Threads 0 and 1 (initial priorities 10 and 12) each own a mutex and wait for the other's, and
   thread 2 (initial priority 5) waits for mutex 0, at position `0` of its list.
   */
  ghost function Deadlocked(): State {
    State(map[0 := Thread(10, 5, true, Some(1), [0]),
              1 := Thread(12, 5, true, Some(0), [1]),
              2 := Thread(5, 5, true, Some(0), [])],
          map[0 := Mutex(Some(0), 1, 5, [2, 1]), 1 := Mutex(Some(1), 1, 5, [0])],
          map[2 := 1, 0 := 2, 1 := 3],
          4)
  }

  lemma DeadlockedThreads(t: Tid)
    requires t in Deadlocked().threads
    ensures ThreadLinked(Deadlocked(), t) && Effective(Deadlocked(), t)
  {
    var s := Deadlocked();
    assert [2, 1][0] == 2 && [2, 1][1] == 1 && [0][0] == 0 && [1][0] == 1;
    assert 0 in s.threads[0].taken && 1 in s.threads[1].taken;
  }

  lemma DeadlockedMutexes(m: Mid)
    requires m in Deadlocked().mutexes
    ensures MutexLinked(Deadlocked(), m) && Queued(Deadlocked(), m)
  {
    assert [0][0] == 0 && [1][0] == 1;
    assert Before(Deadlocked(), 2, 1);
  }

  lemma DeadlockedInv()
    ensures Inv(Deadlocked())
  {
    var s := Deadlocked();
    assert Linked(s) && AllQueuedBut(s, None) by {
      forall t | t in s.threads
        ensures ThreadLinked(s, t)
      {
        DeadlockedThreads(t);
      }
      forall m | m in s.mutexes
        ensures MutexLinked(s, m) && Queued(s, m)
      {
        DeadlockedMutexes(m);
      }
    }
    assert AllEffectiveBut(s, None) by {
      forall t | t in s.threads
        ensures Effective(s, t)
      {
        DeadlockedThreads(t);
      }
    }
  }

  lemma DeadlockedGraph()
    ensures WaitsFor(Deadlocked()) == map[0 := 1, 1 := 0, 2 := 0]
    ensures !Acyclic(WaitsFor(Deadlocked()))
  {
    var g := WaitsFor(Deadlocked());
    assert Chain(g, 0, 2) == Chain(g, 1, 1) == Chain(g, 0, 0) == Some(0);
    assert OnCycle(g, 0);
  }

  /** Dropping thread 2 from the deadlock leaves owner 0 where its local equation wants it. */
  lemma DeadlockedDrop()
    requires Inv(Deadlocked())
    ensures CanDrop(Deadlocked(), 2, 0) && Inv(Dropped(Deadlocked(), 2, 0))
  {
    var s := Deadlocked();
    assert [2, 1][0] == 2;
    assert Without([2, 1], 2) == [1];
    assert CanDrop(s, 2, 0);
    var s' := Dropped(s, 2, 0);
    assert s'.mutexes[0].prio == 5 && 0 in s'.threads[0].taken;
    assert IsEffective(s', 0, 5);
    DropStep(s, 2, 0);
    OffByNothing(s', 0, 5);
  }

  lemma DeadlockedExact()
    requires Inv(Deadlocked()) && WaitsFor(Deadlocked()) == map[0 := 1, 1 := 0, 2 := 0]
    ensures AllExact(Deadlocked())
  {
    var s, g := Deadlocked(), WaitsFor(Deadlocked());
    assert Chain(g, 2, 0) == Some(2) && Chain(g, 2, 1) == Chain(g, 0, 0) == Some(0);
    assert Chain(g, 2, 2) == Chain(g, 0, 1) == Chain(g, 1, 0) == Some(1);
    forall t | t in s.threads
      ensures Exact(s, t)
    {
      ExactIff(s, t);
      assert 2 in BlockedOn(s, t) && s.threads[2].init == s.threads[t].cur;
    }
  }

  /** The deadlock is exact. Once thread 2 gives up, threads 0 and 1 lend each other a priority neither of them has. */
  lemma DeadlockOutlivesItsSource()
    ensures Inv(Deadlocked()) && !Acyclic(WaitsFor(Deadlocked())) && AllExact(Deadlocked())
    ensures CanDrop(Deadlocked(), 2, 0) && LosesSource(Deadlocked(), GiveUpCall(2), 0)
    ensures Inv(Dropped(Deadlocked(), 2, 0)) && !Exact(Dropped(Deadlocked(), 2, 0), 0)
  {
    hide *;
    DeadlockedInv();
    DeadlockedGraph();
    DeadlockedExact();
    DeadlockedDrop();
    DeadlockedLoses();
  }

  lemma DeadlockedLoses()
    requires CanDrop(Deadlocked(), 2, 0) && WaitsFor(Deadlocked()) == map[0 := 1, 1 := 0, 2 := 0]
    ensures LosesSource(Deadlocked(), GiveUpCall(2), 0) && !Exact(Dropped(Deadlocked(), 2, 0), 0)
  {
    DroppedGraph(Deadlocked(), 2, 0);
    var g := WaitsFor(Deadlocked()) - {2};
    assert g == map[0 := 1, 1 := 0];
    assert Chain(g, 0, 2) == Chain(g, 1, 1) == Chain(g, 0, 0) == Some(0);
    assert OnCycle(g, 0);
    DeadlockedSources(g);
  }

  lemma DeadlockedSources(g: Graph)
    requires g == map[0 := 1, 1 := 0] && WaitsFor(Deadlocked()) - {2} == g && WaitsFor(Dropped(Deadlocked(), 2, 0)) == g
    ensures !SourceRemains(Deadlocked(), 2, 0) && !Exact(Dropped(Deadlocked(), 2, 0), 0)
  {
    forall u | Reaches(g, u, 0)
      ensures u != 2
    {
      var n: nat :| Chain(g, u, n) == Some(0);
    }
  }

  // ----- runs

  /** The states of a run, before and after each call. */
  ghost predicate IsRun(trace: seq<State>, calls: seq<Call>) {
    && |trace| == |calls| + 1
    && (forall i :: 0 <= i < |trace| ==> Inv(trace[i]))
    && (forall i :: 0 <= i < |calls| ==> Did(trace[i], calls[i], trace[i + 1]))
  }

  lemma {:induction false} AcyclicUpTo(trace: seq<State>, calls: seq<Call>, n: nat)
    requires IsRun(trace, calls) && n < |trace| && Acyclic(WaitsFor(trace[0]))
    requires forall i :: 0 <= i < n ==> !ClosesCycle(trace[i], calls[i])
    ensures Acyclic(WaitsFor(trace[n]))
  {
    if n != 0 {
      AcyclicUpTo(trace, calls, n - 1);
      DeadlockStep(trace[n - 1], calls[n - 1], trace[n]);
    }
  }

  /** A run deadlocks if and only if one of its takes closes a cycle of waits. */
  lemma DeadlockIff(trace: seq<State>, calls: seq<Call>)
    requires IsRun(trace, calls) && Acyclic(WaitsFor(trace[0]))
    ensures (exists i :: 0 <= i < |trace| && !Acyclic(WaitsFor(trace[i])))
            <==> exists i :: 0 <= i < |calls| && ClosesCycle(trace[i], calls[i])
  {
    if i :| 0 <= i < |calls| && ClosesCycle(trace[i], calls[i]) {
      DeadlockStep(trace[i], calls[i], trace[i + 1]);
      assert !Acyclic(WaitsFor(trace[i])) || !Acyclic(WaitsFor(trace[i + 1]));
    } else {
      forall i | 0 <= i < |trace|
        ensures Acyclic(WaitsFor(trace[i]))
      {
        AcyclicUpTo(trace, calls, i);
      }
    }
  }

  ghost predicate NoneLoses(s: State, call: Call) {
    forall t :: t in s.threads ==> !LosesSource(s, call, t)
  }

  lemma ExactStepAll(s: State, call: Call, s': State)
    requires Inv(s) && Inv(s') && Did(s, call, s') && AllExact(s)
    ensures AllExact(s') <==> NoneLoses(s, call)
  {
    DidKeepsThreads(s, call, s');
    forall t | t in s.threads
      ensures Exact(s', t) <==> !LosesSource(s, call, t)
    {
      ExactStep(s, call, s', t);
    }
  }

  lemma {:induction false} ExactUpTo(trace: seq<State>, calls: seq<Call>, n: nat)
    requires IsRun(trace, calls) && n < |trace| && AllExact(trace[0])
    requires forall i :: 0 <= i < n ==> NoneLoses(trace[i], calls[i])
    ensures AllExact(trace[n])
  {
    if n != 0 {
      ExactUpTo(trace, calls, n - 1);
      ExactStepAll(trace[n - 1], calls[n - 1], trace[n]);
    }
  }

  /** All priorities stay exact over a run, deadlocks included, if and only if nobody who gives up was a last source. */
  lemma ExactIffNoneLoses(trace: seq<State>, calls: seq<Call>)
    requires IsRun(trace, calls) && AllExact(trace[0])
    ensures (forall i :: 0 <= i < |trace| ==> AllExact(trace[i]))
            <==> forall i :: 0 <= i < |calls| ==> NoneLoses(trace[i], calls[i])
  {
    if forall i :: 0 <= i < |trace| ==> AllExact(trace[i]) {
      forall i | 0 <= i < |calls|
        ensures NoneLoses(trace[i], calls[i])
      {
        ExactStepAll(trace[i], calls[i], trace[i + 1]);
      }
    }
    if forall i :: 0 <= i < |calls| ==> NoneLoses(trace[i], calls[i]) {
      forall i | 0 <= i < |trace|
        ensures AllExact(trace[i])
      {
        ExactUpTo(trace, calls, i);
      }
    }
  }

  lemma TakeDid(s: State, t: Tid, m: Mid, timeout: int, s': State)
    requires Inv(s) && CanCall(s, t, m)
    requires Blocks(s, t, m, timeout) ==>
               (exists k: nat :: CanSuspend(s, t, m, k)
                  && Walked(Suspended(s, t, m, k), s', Raise(s.mutexes[m].owner.value, s.threads[t].cur), None))
    requires s.mutexes[m].owner.None? ==> s' == Acquired(s, t, m)
    requires s.mutexes[m].owner == Some(t) && s.mutexes[m].hold < HOLD_MAX ==> s' == Rehold(s, m, s.mutexes[m].hold + 1)
    requires s.mutexes[m].owner == Some(t) && s.mutexes[m].hold == HOLD_MAX ==> s' == s
    requires s.mutexes[m].owner.Some? && s.mutexes[m].owner != Some(t) && timeout == 0 ==> s' == s
    ensures Did(s, TakeCall(t, m, timeout), s')
  {
    HoldInRange(s, m);
    if Blocks(s, t, m, timeout) {
      var k: nat :| CanSuspend(s, t, m, k)
        && Walked(Suspended(s, t, m, k), s', Raise(s.mutexes[m].owner.value, s.threads[t].cur), None);
      assert DidBlock(s, t, m, k, s');
    }
  }

  /** One call on the kernel's mutexes. */
  method Step(k: MutexSystem, call: Call)
    requires Inv(k.St())
    modifies k
    ensures Inv(k.St()) && Did(old(k.St()), call, k.St())
  {
    ghost var s := k.St();
    match call {
      case TakeCall(t, m, timeout) =>
        if t in k.threads && !k.threads[t].suspended && m in k.mutexes {
          var r := k.Take(t, m, timeout);
          TakeDid(s, t, m, timeout, k.St());
        }
      case ReleaseCall(t, m) =>
        if t in k.threads && !k.threads[t].suspended && m in k.mutexes {
          HoldIsPositive(s, m);
          var ok := k.Release(t, m);
        }
      case GiveUpCall(u) =>
        if u in k.threads && k.threads[u].pending.Some? {
          WaiterIsLinked(s, u);
          k.DropWaiter(u);
        }
      case SleepCall(t, asleep) =>
        if t in k.threads && k.threads[t].pending.None? {
          k.Sleep(t, asleep);
        }
    }
  }

  lemma HoldIsPositive(s: State, m: Mid)
    requires Inv(s) && m in s.mutexes
    ensures s.mutexes[m].owner.Some? ==> s.mutexes[m].hold > 0
  {
    assert MutexLinked(s, m);
  }

  /**
   Any sequence of calls, from a state without deadlock. It deadlocks if and only if a take closes a cycle of waits;
   a thread on no cycle has its exact priority at every moment; and all have, unless one that gives up takes the last
   source of a cycle away.
   */
  method Run(k: MutexSystem, calls: seq<Call>) returns (ghost trace: seq<State>)
    requires Inv(k.St())
    modifies k
    ensures IsRun(trace, calls) && trace[0] == old(k.St()) && trace[|calls|] == k.St()
    ensures forall i, t :: 0 <= i < |trace| && t in trace[i].threads && !OnCycle(WaitsFor(trace[i]), t) ==> Exact(trace[i], t)
    ensures old(Acyclic(WaitsFor(k.St()))) ==>
              ((exists i :: 0 <= i < |trace| && !Acyclic(WaitsFor(trace[i])))
               <==> exists i :: 0 <= i < |calls| && ClosesCycle(trace[i], calls[i]))
    ensures old(Acyclic(WaitsFor(k.St()))) ==>
              ((forall i :: 0 <= i < |trace| ==> AllExact(trace[i]))
               <==> forall i :: 0 <= i < |calls| ==> NoneLoses(trace[i], calls[i]))
  {
    trace := [k.St()];
    for i := 0 to |calls|
      invariant Inv(k.St())
      invariant |trace| == i + 1 && trace[0] == old(k.St()) && trace[i] == k.St()
      invariant forall j :: 0 <= j <= i ==> Inv(trace[j])
      invariant forall j :: 0 <= j < i ==> Did(trace[j], calls[j], trace[j + 1])
    {
      Step(k, calls[i]);
      trace := trace + [k.St()];
    }
    forall i, t | 0 <= i < |trace| && t in trace[i].threads && !OnCycle(WaitsFor(trace[i]), t)
      ensures Exact(trace[i], t)
    {
      ExactAt(trace[i], t);
    }
    if Acyclic(WaitsFor(trace[0])) {
      DeadlockIff(trace, calls);
      InheritanceIsExact(trace[0]);
      ExactIffNoneLoses(trace, calls);
    }
  }
}
