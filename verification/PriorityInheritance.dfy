/**
 Mutexes with priority inheritance (src/ipc.c). A smaller number is a more
 urgent priority.

 A blocked taker pushes its priority through the owners it transitively waits
 for; the walk changes one thread at a time and stops at the first owner whose
 priority is already right. `Inv` is the local fixpoint the walk restores, and it
 needs no assumption on the wait-for graph. A thread on no cycle of that graph
 is then at the global fixpoint: it runs at the most urgent initial priority
 among itself and the threads blocked on it (`ExactAt`). A thread on a cycle is
 too, exactly if somebody blocked on it has that initial priority (`ExactIff`).
 */
module PriorityInheritance {
  import opened Wrappers
  import opened Sequences
  import opened WaitGraph

  type Mid = nat

  /** 0xff, the priority of a mutex nobody waits for. */
  const NO_WAITER := 0xff

  const HOLD_MAX := 0xff

  datatype Thread = Thread(init: nat, cur: nat, suspended: bool, pending: Option<Mid>, taken: seq<Mid>)

  datatype Mutex = Mutex(owner: Option<Tid>, hold: nat, prio: nat, waiters: seq<Tid>)

  /** `stamps` is a history variable: when each thread last entered a wait list. */
  datatype State = State(threads: map<Tid, Thread>, mutexes: map<Mid, Mutex>, stamps: map<Tid, nat>, clock: nat)

  datatype TakeResult = Taken | HoldOverflow | WouldBlock | Blocked

  // ----- the invariant

  /** The taken list of `t` holds mutexes it owns, and `t` is in the wait list of its pending mutex. */
  ghost predicate ThreadLinked(s: State, t: Tid)
    requires t in s.threads
  {
    var th := s.threads[t];
    && t in s.stamps
    && Distinct(th.taken)
    && (forall m :: m in th.taken ==> m in s.mutexes && s.mutexes[m].owner == Some(t))
    && (th.pending.Some? ==>
          && th.suspended
          && th.pending.value in s.mutexes
          && t in s.mutexes[th.pending.value].waiters)
  }

  /** `m` is unowned, unheld and unwaited-for together, or on its owner's taken list; its waiters pend on it. */
  ghost predicate MutexLinked(s: State, m: Mid)
    requires m in s.mutexes
  {
    var mx := s.mutexes[m];
    && Distinct(mx.waiters)
    && mx.hold <= HOLD_MAX
    && (mx.owner.None? <==> mx.hold == 0)
    && (mx.owner.None? ==> mx.waiters == [])
    && (mx.owner.Some? ==> mx.owner.value in s.threads && m in s.threads[mx.owner.value].taken)
    && (forall w :: w in mx.waiters ==> w in s.threads && s.threads[w].pending == Some(m) && mx.owner != Some(w))
  }

  // The quantifiers below fire only on a mention of the predicate they range over.

  ghost predicate Linked(s: State) {
    && (forall t {:trigger ThreadLinked(s, t)} :: t in s.threads ==> ThreadLinked(s, t))
    && (forall m {:trigger MutexLinked(s, m)} :: m in s.mutexes ==> MutexLinked(s, m))
  }

  ghost predicate InRange(s: State) {
    && (forall t :: t in s.threads ==> s.threads[t].init <= NO_WAITER && s.threads[t].cur <= NO_WAITER)
    && (forall t :: t in s.stamps ==> s.stamps[t] < s.clock)
  }

  /** The order of a wait list: more urgent first, ties in the order of entering the list. */
  ghost predicate Before(s: State, u: Tid, w: Tid) {
    && u in s.threads && w in s.threads && u in s.stamps && w in s.stamps
    && (s.threads[u].cur < s.threads[w].cur
        || (s.threads[u].cur == s.threads[w].cur && s.stamps[u] < s.stamps[w]))
  }

  ghost predicate Sorted(s: State, ws: seq<Tid>) {
    forall i, j :: 0 <= i < j < |ws| ==> Before(s, ws[i], ws[j])
  }

  /** The wait list of `m` is in order and `m` carries the priority of its head. */
  ghost predicate Queued(s: State, m: Mid)
    requires m in s.mutexes
  {
    var ws := s.mutexes[m].waiters;
    && Sorted(s, ws)
    && (ws == [] ==> s.mutexes[m].prio == NO_WAITER)
    && (ws != [] ==> ws[0] in s.threads && s.mutexes[m].prio == s.threads[ws[0]].cur)
  }

  /** `p` is the minimum of the initial priority of `t` and the priorities of the mutexes it has taken. */
  ghost predicate IsEffective(s: State, t: Tid, p: nat)
    requires t in s.threads
  {
    && p <= s.threads[t].init
    && (forall m :: m in s.threads[t].taken && m in s.mutexes ==> p <= s.mutexes[m].prio)
    && (p == s.threads[t].init
        || exists m :: m in s.threads[t].taken && m in s.mutexes && p == s.mutexes[m].prio)
  }

  ghost predicate Effective(s: State, t: Tid)
    requires t in s.threads
  {
    IsEffective(s, t, s.threads[t].cur)
  }

  ghost predicate AllQueuedBut(s: State, skip: Option<Mid>) {
    forall m {:trigger Queued(s, m)} :: m in s.mutexes && Some(m) != skip ==> Queued(s, m)
  }

  ghost predicate AllEffectiveBut(s: State, skip: Option<Tid>) {
    forall t {:trigger Effective(s, t)} :: t in s.threads && Some(t) != skip ==> Effective(s, t)
  }

  ghost predicate Inv(s: State) {
    Linked(s) && InRange(s) && AllQueuedBut(s, None) && AllEffectiveBut(s, None)
  }

  // ----- exactness

  /** Each suspended taker waits for the owner of its mutex. */
  ghost function WaitsFor(s: State): Graph {
    map t | t in s.threads && s.threads[t].pending.Some?
            && s.threads[t].pending.value in s.mutexes
            && s.mutexes[s.threads[t].pending.value].owner.Some?
          :: s.mutexes[s.threads[t].pending.value].owner.value
  }

  /** The threads blocked on `t`, directly or through other owners, and `t`. */
  ghost function BlockedOn(s: State, t: Tid): set<Tid> {
    Ancestors(WaitsFor(s), s.threads.Keys, t)
  }

  /** `t` runs at the most urgent initial priority of the threads blocked on it. */
  ghost predicate Exact(s: State, t: Tid)
    requires t in s.threads
  {
    && (forall u :: u in BlockedOn(s, t) ==> s.threads[t].cur <= s.threads[u].init)
    && (exists u :: u in BlockedOn(s, t) && s.threads[t].cur == s.threads[u].init)
  }

  lemma WaiterFacts(s: State, u: Tid)
    requires Inv(s) && u in WaitsFor(s)
    ensures var o := WaitsFor(s)[u];
      o in s.threads && s.threads[o].cur <= s.threads[u].cur
  {
    assert ThreadLinked(s, u);
    var m := s.threads[u].pending.value;
    assert MutexLinked(s, m) && Queued(s, m);
    var ws := s.mutexes[m].waiters;
    var i :| 0 <= i < |ws| && ws[i] == u;
    assert i > 0 ==> Before(s, ws[0], ws[i]);
    assert Effective(s, s.mutexes[m].owner.value);
  }

  /** Urgency never decreases from a waiter to the thread it waits for. */
  lemma {:induction false} OwnerNoLessUrgent(s: State, u: Tid, n: nat, t: Tid)
    requires Inv(s) && u in s.threads && Chain(WaitsFor(s), u, n) == Some(t)
    ensures t in s.threads && s.threads[t].cur <= s.threads[u].cur
    decreases n
  {
    if n != 0 {
      WaiterFacts(s, u);
      OwnerNoLessUrgent(s, WaitsFor(s)[u], n - 1, t);
    }
  }

  /** A thread above its initial priority has it from a waiter. */
  lemma InheritedFromWaiter(s: State, t: Tid) returns (w: Tid)
    requires Inv(s) && t in s.threads && s.threads[t].cur != s.threads[t].init
    ensures w in WaitsFor(s) && WaitsFor(s)[w] == t && s.threads[w].cur == s.threads[t].cur
  {
    assert Effective(s, t) && ThreadLinked(s, t);
    var m :| m in s.threads[t].taken && m in s.mutexes && s.threads[t].cur == s.mutexes[m].prio;
    assert MutexLinked(s, m) && Queued(s, m);
    w := s.mutexes[m].waiters[0];
  }

  lemma SmallerSet<T>(a: set<T>, b: set<T>)
    requires a < b
    ensures |a| < |b|
  {
    assert b == a + (b - a) && a !! (b - a);
    assert |b - a| > 0;
  }

  /** Somebody blocked on `t`, a thread on no cycle, has the initial priority `t` runs at. */
  lemma {:induction false} PriorityHasSource(s: State, t: Tid) returns (u: Tid)
    requires Inv(s) && !OnCycle(WaitsFor(s), t) && t in s.threads
    ensures u in BlockedOn(s, t) && s.threads[u].init == s.threads[t].cur
    decreases |BlockedOn(s, t)|
  {
    ReachesSelf(WaitsFor(s), t);
    if s.threads[t].cur == s.threads[t].init {
      u := t;
    } else {
      var w := InheritedFromWaiter(s, t);
      WaiterOffCycle(WaitsFor(s), w);
      AncestorsGrow(WaitsFor(s), s.threads.Keys, w);
      SmallerSet(BlockedOn(s, w), BlockedOn(s, t));
      u := PriorityHasSource(s, w);
      assert u in BlockedOn(s, t);
    }
  }

  /** Somebody blocked on `t` has the initial priority `t` runs at. */
  ghost predicate HasSource(s: State, t: Tid)
    requires t in s.threads
  {
    exists u :: u in BlockedOn(s, t) && s.threads[u].init == s.threads[t].cur
  }

  /** No thread runs at less than the initial priority of one blocked on it: only being too urgent is possible. */
  lemma ExactIff(s: State, t: Tid)
    requires Inv(s) && t in s.threads
    ensures Exact(s, t) <==> HasSource(s, t)
  {
    forall u | u in BlockedOn(s, t)
      ensures s.threads[t].cur <= s.threads[u].init
    {
      var n: nat :| Chain(WaitsFor(s), u, n) == Some(t);
      OwnerNoLessUrgent(s, u, n, t);
      assert Effective(s, u);
    }
  }

  /** Whatever deadlocks there are, a thread on no cycle has its exact priority. */
  lemma ExactAt(s: State, t: Tid)
    requires Inv(s) && !OnCycle(WaitsFor(s), t) && t in s.threads
    ensures Exact(s, t)
  {
    ExactIff(s, t);
    var u := PriorityHasSource(s, t);
  }

  /** Without deadlock, the local fixpoint is exact priority inheritance. */
  lemma InheritanceIsExact(s: State)
    requires Inv(s) && Acyclic(WaitsFor(s))
    ensures forall t :: t in s.threads ==> Exact(s, t)
  {
    forall t | t in s.threads
      ensures Exact(s, t)
    {
      assert !OnCycle(WaitsFor(s), t);
      ExactAt(s, t);
    }
  }

  /** The threads of a cycle all run at one priority. */
  ghost predicate CyclesEven(s: State) {
    forall w :: w in s.threads && OnCycle(WaitsFor(s), w) && w in WaitsFor(s) && WaitsFor(s)[w] in s.threads ==>
      s.threads[WaitsFor(s)[w]].cur == s.threads[w].cur
  }

  lemma FixpointIsEven(s: State)
    requires Inv(s)
    ensures CyclesEven(s)
  {
    var g := WaitsFor(s);
    forall w | w in s.threads && OnCycle(g, w) && w in g && g[w] in s.threads
      ensures s.threads[g[w]].cur == s.threads[w].cur
    {
      CycleSuccessor(g, w);
      WaiterFacts(s, w);
      var n: nat :| Chain(g, g[w], n) == Some(w);
      OwnerNoLessUrgent(s, g[w], n, w);
    }
  }

  // ----- the owner-chain walk, on states

  /** Nothing but priorities and the order within wait lists differs. */
  ghost predicate OnlyPriorities(s: State, s': State) {
    && s'.threads.Keys == s.threads.Keys
    && s'.mutexes.Keys == s.mutexes.Keys
    && (forall t :: t in s.threads ==> s'.threads[t] == s.threads[t].(cur := s'.threads[t].cur))
    && (forall m :: m in s.mutexes ==>
          && s'.mutexes[m].owner == s.mutexes[m].owner
          && s'.mutexes[m].hold == s.mutexes[m].hold
          && (forall w :: w in s'.mutexes[m].waiters <==> w in s.mutexes[m].waiters))
  }

  lemma OnlyPrioritiesKeepsGraph(s: State, s': State)
    requires OnlyPriorities(s, s')
    ensures WaitsFor(s') == WaitsFor(s)
  {
  }

  /** A walk from `start`: it makes threads more urgent, up to `prio`, or less urgent. */
  datatype Walk = Raise(start: Tid, prio: nat) | Lower(start: Tid)

  /**
   What a walk does to `t`: nothing, or it changes its priority in the one direction, `t` being an owner up the chain.
   A raising walk hands on the priority it started with. Only a thread with a new priority gets a new stamp.
   */
  ghost predicate MovedBy(s: State, s': State, w: Walk, t: Tid)
    requires t in s.threads && t in s'.threads
  {
    var a, b := s.threads[t].cur, s'.threads[t].cur;
    && (a != b ==> Reaches(WaitsFor(s), w.start, t) && if w.Raise? then b == w.prio < a else a < b)
    && (t in s.stamps ==> t in s'.stamps && (s'.stamps[t] == s.stamps[t] || s.clock <= s'.stamps[t]))
    && (t in s.stamps && (a == b || s.threads[t].pending.None?) ==> s'.stamps[t] == s.stamps[t])
  }

  /** A waiter that changes its priority enters its wait list anew. */
  ghost predicate Reenters(s: State, s': State, t: Tid)
    requires t in s.threads && t in s'.threads
  {
    s.threads[t].cur != s'.threads[t].cur && s.threads[t].pending.Some? ==> t in s'.stamps && s.clock <= s'.stamps[t]
  }

  ghost predicate CyclesKept(s: State, s': State) {
    forall t :: t in s.threads && t in s'.threads && OnCycle(WaitsFor(s), t) ==> s'.threads[t].cur == s.threads[t].cur
  }

  /**
   What a walk has done so far; `last`, if any, has a new priority and is yet to be re-queued. A lowering walk stops
   at a cycle whose threads run at one priority.
   */
  ghost predicate Walked(s: State, s': State, w: Walk, last: Option<Tid>) {
    && OnlyPriorities(s, s')
    && s.clock <= s'.clock
    && (forall t {:trigger MovedBy(s, s', w, t)} :: t in s.threads ==> MovedBy(s, s', w, t))
    && (forall t {:trigger Reenters(s, s', t)} :: t in s.threads && Some(t) != last ==> Reenters(s, s', t))
    && (last.Some? && last.value in s.threads ==> s'.threads[last.value].cur != s.threads[last.value].cur)
    && (w.Lower? && CyclesEven(s) ==> CyclesKept(s, s'))
  }

  lemma NothingWalked(s: State, w: Walk)
    ensures Walked(s, s, w, None)
  {
  }

  /**
   Among equals, a wait list has first the waiters the walk did not touch, in their old order, and then those that
   have re-entered it.
   */
  lemma WaitersKeepOrder(s: State, s': State, w: Walk, m: Mid, i: nat, j: nat) returns (a: nat, b: nat)
    requires Linked(s) && InRange(s) && AllQueuedBut(s, None) && Inv(s') && Walked(s, s', w, None)
    requires m in s.mutexes && m in s'.mutexes && i < j < |s'.mutexes[m].waiters|
    requires var u, v := s'.mutexes[m].waiters[i], s'.mutexes[m].waiters[j];
      && u in s'.threads && v in s'.threads && v in s.threads
      && s'.threads[u].cur == s'.threads[v].cur == s.threads[v].cur
    ensures var u, v, ws := s'.mutexes[m].waiters[i], s'.mutexes[m].waiters[j], s.mutexes[m].waiters;
      && u in s.threads && s.threads[u].cur == s'.threads[u].cur
      && a < b < |ws| && ws[a] == u && ws[b] == v
  {
    var u, v, ws := s'.mutexes[m].waiters[i], s'.mutexes[m].waiters[j], s.mutexes[m].waiters;
    assert MutexLinked(s', m) && Queued(s', m) && Queued(s, m);
    assert u in ws && v in ws;
    assert ThreadLinked(s, u) && ThreadLinked(s, v) && Before(s', u, v);
    assert MovedBy(s, s', w, u) && MovedBy(s, s', w, v) && Reenters(s, s', u);
    a :| 0 <= a < |ws| && ws[a] == u;
    b :| 0 <= b < |ws| && ws[b] == v;
  }

  /** Everything is in order except the priority of `t`, which should be `p`. */
  ghost predicate OffAt(s: State, t: Tid, p: nat) {
    && Linked(s) && InRange(s) && AllQueuedBut(s, None)
    && AllEffectiveBut(s, Some(t))
    && t in s.threads && IsEffective(s, t, p)
  }

  /** The wait list of `m` was in order, with `m` at its head's priority, before `x` became more or less urgent. */
  ghost predicate StaleAt(s: State, m: Mid, x: Tid, raised: bool)
    requires m in s.mutexes
  {
    var mx := s.mutexes[m];
    && (forall i, j :: 0 <= i < j < |mx.waiters| && mx.waiters[i] != x && mx.waiters[j] != x ==>
          Before(s, mx.waiters[i], mx.waiters[j]))
    && (raised ==> exists w :: w in mx.waiters && w in s.threads && s.threads[w].cur <= mx.prio)
    && (forall w :: w in mx.waiters && w in s.threads && (raised ==> w != x) ==> mx.prio <= s.threads[w].cur)
  }

  /** The walk has reached `x`: its priority is right, the mutex it waits for has not been told yet. */
  ghost predicate WalkAt(s: State, x: Tid, raised: bool) {
    && Linked(s) && InRange(s) && AllEffectiveBut(s, None)
    && x in s.threads
    && AllQueuedBut(s, s.threads[x].pending)
    && (s.threads[x].pending.Some? && s.threads[x].pending.value in s.mutexes ==>
          StaleAt(s, s.threads[x].pending.value, x, raised))
  }

  /** Position `k` is where `rt_susp_list_enqueue` puts a thread of priority `p`. */
  ghost predicate IsInsertPosition(threads: map<Tid, Thread>, ws: seq<Tid>, p: nat, k: nat) {
    && k <= |ws|
    && (forall i :: 0 <= i < |ws| ==> ws[i] in threads)
    && (forall i :: 0 <= i < k ==> threads[ws[i]].cur <= p)
    && (k < |ws| ==> p < threads[ws[k]].cur)
  }

  /** A thread inserted at its position, with the newest stamp, leaves the list sorted. */
  lemma InsertKeepsSorted(s: State, ws: seq<Tid>, x: Tid, k: nat)
    requires x in s.threads && x in s.stamps && Sorted(s, ws)
    requires IsInsertPosition(s.threads, ws, s.threads[x].cur, k)
    requires forall w :: w in ws ==> w in s.stamps && s.stamps[w] < s.stamps[x]
    ensures Sorted(s, InsertAt(ws, k, x))
  {
    var r := InsertAt(ws, k, x);
    forall i, j | 0 <= i < j < |r|
      ensures Before(s, r[i], r[j])
    {
      if j < k {
        assert Before(s, ws[i], ws[j]);
      } else if k < i {
        assert Before(s, ws[i - 1], ws[j - 1]);
      } else if j == k {
        assert r[i] == ws[i] && ws[i] in ws;
      } else if i == k {
        assert r[j] == ws[j - 1] && ws[k] in s.threads;
        assert k < j - 1 ==> Before(s, ws[k], ws[j - 1]);
      } else {
        assert Before(s, ws[i], ws[j - 1]);
      }
    }
  }

  /** A list without `x` does not notice a change of `x`. */
  lemma SortedFrame(s: State, s': State, ws: seq<Tid>)
    requires Sorted(s, ws)
    requires forall w :: w in ws && w in s.threads && w in s.stamps ==>
               w in s'.threads && w in s'.stamps
               && s'.threads[w].cur == s.threads[w].cur && s'.stamps[w] == s.stamps[w]
    ensures Sorted(s', ws)
  {
    forall i, j | 0 <= i < j < |ws|
      ensures Before(s', ws[i], ws[j])
    {
      assert Before(s, ws[i], ws[j]);
    }
  }

  /** A mutex whose record and waiters keep their values stays in order. */
  lemma QueuedFrame(s: State, s': State, m: Mid)
    requires m in s.mutexes && m in s'.mutexes && Queued(s, m)
    requires s'.mutexes[m].waiters == s.mutexes[m].waiters && s'.mutexes[m].prio == s.mutexes[m].prio
    requires forall w :: w in s.mutexes[m].waiters && w in s.threads && w in s.stamps ==>
               w in s'.threads && w in s'.stamps
               && s'.threads[w].cur == s.threads[w].cur && s'.stamps[w] == s.stamps[w]
    requires s.mutexes[m].waiters != [] ==> s.mutexes[m].waiters[0] in s.stamps
    ensures Queued(s', m)
  {
    SortedFrame(s, s', s.mutexes[m].waiters);
  }

  /** Wait lists do not notice changes other than of priorities and stamps. */
  lemma QueuedSameCur(s: State, s': State, n: Mid)
    requires Linked(s) && n in s.mutexes && n in s'.mutexes && Queued(s, n)
    requires s'.mutexes[n].waiters == s.mutexes[n].waiters && s'.mutexes[n].prio == s.mutexes[n].prio
    requires s'.stamps == s.stamps
    requires forall t :: t in s.threads ==> t in s'.threads && s'.threads[t].cur == s.threads[t].cur
    ensures Queued(s', n)
  {
    forall w | w in s.mutexes[n].waiters
      ensures w in s.stamps
    {
      assert MutexLinked(s, n) && ThreadLinked(s, w);
    }
    QueuedFrame(s, s', n);
  }

  /** `x` leaves the wait list of `m` and enters it again at position `k`; `m` takes the priority of its head. */
  ghost function Requeued(s: State, x: Tid, m: Mid, k: nat): State
    requires x in s.threads && m in s.mutexes
    requires k <= |Without(s.mutexes[m].waiters, x)|
    requires forall w :: w in s.mutexes[m].waiters ==> w in s.threads
    requires forall w :: w in Without(s.mutexes[m].waiters, x) ==> w in s.threads
  {
    var ws := InsertAt(Without(s.mutexes[m].waiters, x), k, x);
    State(s.threads,
          s.mutexes[m := s.mutexes[m].(waiters := ws, prio := s.threads[ws[0]].cur)],
          s.stamps[x := s.clock],
          s.clock + 1)
  }

  /** What the walk does at `x`, and when. */
  ghost predicate CanRequeue(s: State, x: Tid, m: Mid, k: nat, raised: bool) {
    && WalkAt(s, x, raised)
    && s.threads[x].pending == Some(m)
    && m in s.mutexes
    && (forall w :: w in s.mutexes[m].waiters ==> w in s.threads)
    && (forall w :: w in Without(s.mutexes[m].waiters, x) ==> w in s.threads)
    && IsInsertPosition(s.threads, Without(s.mutexes[m].waiters, x), s.threads[x].cur, k)
  }

  lemma RequeuedMembers(s: State, x: Tid, m: Mid, k: nat, raised: bool)
    requires CanRequeue(s, x, m, k, raised)
    ensures var ws := Requeued(s, x, m, k).mutexes[m].waiters;
      Distinct(ws) && ws != [] && forall w :: w in ws <==> w in s.mutexes[m].waiters
  {
    assert ThreadLinked(s, x) && MutexLinked(s, m);
    WithoutMembers(s.mutexes[m].waiters, x);
    InsertAtMembers(Without(s.mutexes[m].waiters, x), k, x);
    InsertAtDistinct(Without(s.mutexes[m].waiters, x), k, x);
  }

  lemma RequeuedLinked(s: State, x: Tid, m: Mid, k: nat, raised: bool)
    requires CanRequeue(s, x, m, k, raised)
    ensures Linked(Requeued(s, x, m, k)) && InRange(Requeued(s, x, m, k))
    ensures OnlyPriorities(s, Requeued(s, x, m, k))
  {
    hide Queued, Effective, StaleAt, Sorted, OnlyPriorities;
    var s' := Requeued(s, x, m, k);
    RequeuedMembers(s, x, m, k, raised);
    RequeuedPriorities(s, x, m, k, raised);
    forall t | t in s'.threads
      ensures ThreadLinked(s', t)
    {
      assert ThreadLinked(s, t);
    }
    forall n | n in s'.mutexes
      ensures MutexLinked(s', n)
    {
      assert MutexLinked(s, n);
    }
  }

  lemma RequeuedPriorities(s: State, x: Tid, m: Mid, k: nat, raised: bool)
    requires CanRequeue(s, x, m, k, raised)
    ensures OnlyPriorities(s, Requeued(s, x, m, k))
  {
    hide Queued, Effective, StaleAt, Sorted;
    RequeuedMembers(s, x, m, k, raised);
  }

  lemma WithoutStale(s: State, x: Tid, m: Mid, raised: bool)
    requires WalkAt(s, x, raised) && s.threads[x].pending == Some(m) && m in s.mutexes
    ensures Sorted(s, Without(s.mutexes[m].waiters, x))
  {
    assert ThreadLinked(s, x) && MutexLinked(s, m);
    assert StaleAt(s, m, x, raised);
    SortedWithout(s, s.mutexes[m].waiters, x);
  }

  lemma SortedWithout(s: State, ws: seq<Tid>, x: Tid)
    requires x in ws && Distinct(ws)
    requires forall i, j :: 0 <= i < j < |ws| && ws[i] != x && ws[j] != x ==> Before(s, ws[i], ws[j])
    ensures Sorted(s, Without(ws, x))
  {
    var i := WithoutSplits(ws, x);
    var rest := Without(ws, x);
    forall a, b | 0 <= a < b < |rest|
      ensures Before(s, rest[a], rest[b])
    {
      var a', b' := if a < i then a else a + 1, if b < i then b else b + 1;
      assert rest[a] == ws[a'] && rest[b] == ws[b'];
    }
  }

  lemma RequeuedAtMutex(s: State, x: Tid, m: Mid, k: nat, raised: bool)
    requires CanRequeue(s, x, m, k, raised)
    ensures Queued(Requeued(s, x, m, k), m)
  {
    var s' := Requeued(s, x, m, k);
    assert ThreadLinked(s, x) && MutexLinked(s, m);
    var rest := Without(s.mutexes[m].waiters, x);
    WithoutStale(s, x, m, raised);
    WithoutMembers(s.mutexes[m].waiters, x);
    forall w | w in rest
      ensures w in s'.stamps && s'.stamps[w] < s'.stamps[x]
    {
      assert ThreadLinked(s, w);
    }
    SortedFrame(s, s', rest);
    InsertKeepsSorted(s', rest, x, k);
  }

  lemma RequeuedElsewhere(s: State, x: Tid, m: Mid, k: nat, raised: bool, n: Mid)
    requires CanRequeue(s, x, m, k, raised) && n in s.mutexes && n != m
    ensures Queued(Requeued(s, x, m, k), n)
  {
    assert MutexLinked(s, n) && Queued(s, n);
    forall w | w in s.mutexes[n].waiters
      ensures w != x && w in s.stamps
    {
      assert ThreadLinked(s, w);
    }
    QueuedFrame(s, Requeued(s, x, m, k), n);
  }

  /** After re-queueing, only the owner of `m` may still run at the wrong priority. */
  lemma RequeuedOff(s: State, x: Tid, m: Mid, k: nat, raised: bool, p: nat)
    requires CanRequeue(s, x, m, k, raised) && s.mutexes[m].owner.Some?
    requires s.mutexes[m].owner.value in s.threads
    requires IsEffective(Requeued(s, x, m, k), s.mutexes[m].owner.value, p)
    ensures OffAt(Requeued(s, x, m, k), s.mutexes[m].owner.value, p)
    ensures raised ==> p <= s.threads[s.mutexes[m].owner.value].cur
    ensures !raised ==> s.threads[s.mutexes[m].owner.value].cur <= p
  {
    var s' := Requeued(s, x, m, k);
    var o := s.mutexes[m].owner.value;
    RequeuedLinked(s, x, m, k, raised);
    RequeuedAtMutex(s, x, m, k, raised);
    forall n | n in s'.mutexes
      ensures Queued(s', n)
    {
      if n != m {
        RequeuedElsewhere(s, x, m, k, raised, n);
      }
    }
    forall t | t in s'.threads && t != o
      ensures Effective(s', t)
    {
      RequeuedEffective(s, x, m, k, raised, t);
    }
    RequeuedDirection(s, x, m, k, raised);
    assert Effective(s, o);
    if raised {
      EffectiveMonotone(s, s', o, p);
    } else {
      EffectiveAntitone(s, s', o, p);
    }
  }

  lemma RequeuedEffective(s: State, x: Tid, m: Mid, k: nat, raised: bool, t: Tid)
    requires CanRequeue(s, x, m, k, raised) && t in s.threads && s.mutexes[m].owner != Some(t)
    ensures t in Requeued(s, x, m, k).threads && Effective(Requeued(s, x, m, k), t)
  {
    hide Queued, StaleAt, Sorted, MutexLinked;
    var s' := Requeued(s, x, m, k);
    assert Effective(s, t) && ThreadLinked(s, t);
    if s.threads[t].cur != s.threads[t].init {
      var n :| n in s.threads[t].taken && n in s.mutexes && s.threads[t].cur == s.mutexes[n].prio;
      assert n in s'.mutexes && s'.mutexes[n].prio == s.mutexes[n].prio;
    }
  }

  lemma RequeuedDirection(s: State, x: Tid, m: Mid, k: nat, raised: bool)
    requires CanRequeue(s, x, m, k, raised)
    ensures raised ==> Requeued(s, x, m, k).mutexes[m].prio <= s.mutexes[m].prio
    ensures !raised ==> s.mutexes[m].prio <= Requeued(s, x, m, k).mutexes[m].prio
  {
    var s' := Requeued(s, x, m, k);
    RequeuedMembers(s, x, m, k, raised);
    RequeuedAtMutex(s, x, m, k, raised);
    var ws := s'.mutexes[m].waiters;
    assert ws[0] in ws;
    if raised {
      var w :| w in s.mutexes[m].waiters && w in s.threads && s.threads[w].cur <= s.mutexes[m].prio;
      assert w in ws;
      var i :| 0 <= i < |ws| && ws[i] == w;
      assert i > 0 ==> Before(s', ws[0], ws[i]);
    }
  }

  /** Mutexes at most as urgent as before cannot make an owner more urgent, and conversely. */
  lemma EffectiveMonotone(s: State, s': State, o: Tid, p: nat)
    requires o in s.threads && o in s'.threads && s'.threads[o] == s.threads[o]
    requires Effective(s, o) && IsEffective(s', o, p)
    requires forall n :: n in s.mutexes ==> n in s'.mutexes && s'.mutexes[n].prio <= s.mutexes[n].prio
    ensures p <= s.threads[o].cur
  {
  }

  lemma EffectiveAntitone(s: State, s': State, o: Tid, p: nat)
    requires o in s.threads && o in s'.threads && s'.threads[o] == s.threads[o]
    requires Effective(s, o) && IsEffective(s', o, p)
    requires forall n :: n in s'.mutexes ==> n in s.mutexes && s.mutexes[n].prio <= s'.mutexes[n].prio
    ensures s.threads[o].cur <= p
  {
  }

  ghost function Reprioritized(s: State, t: Tid, p: nat): State
    requires t in s.threads
  {
    s.(threads := s.threads[t := s.threads[t].(cur := p)])
  }

  /** Giving the thread that is off its right priority moves the walk there. */
  lemma ChangeStartsWalk(s: State, t: Tid, p: nat, raised: bool)
    requires OffAt(s, t, p)
    requires if raised then p <= s.threads[t].cur else s.threads[t].cur <= p
    ensures WalkAt(Reprioritized(s, t, p), t, raised)
    ensures OnlyPriorities(s, Reprioritized(s, t, p))
  {
    hide Queued, Effective, ThreadLinked, StaleAt, Sorted;
    var s' := Reprioritized(s, t, p);
    forall u | u in s'.threads
      ensures ThreadLinked(s', u) && Effective(s', u)
    {
      ChangedThread(s, t, p, u);
    }
    forall n | n in s'.mutexes
      ensures MutexLinked(s', n)
    {
      assert MutexLinked(s, n);
    }
    forall n | n in s'.mutexes && Some(n) != s'.threads[t].pending
      ensures Queued(s', n)
    {
      ChangedQueued(s, t, p, n);
    }
    if s.threads[t].pending.Some? {
      ChangeMakesStale(s, t, p, raised);
    }
  }

  lemma ChangedThread(s: State, t: Tid, p: nat, u: Tid)
    requires OffAt(s, t, p) && u in s.threads
    ensures u in Reprioritized(s, t, p).threads
    ensures ThreadLinked(Reprioritized(s, t, p), u) && Effective(Reprioritized(s, t, p), u)
  {
    hide Queued, Sorted, MutexLinked;
    assert ThreadLinked(s, u);
    assert u != t ==> Effective(s, u);
  }

  lemma ChangedQueued(s: State, t: Tid, p: nat, n: Mid)
    requires OffAt(s, t, p) && n in s.mutexes && Some(n) != s.threads[t].pending
    ensures Queued(Reprioritized(s, t, p), n)
  {
    hide Effective;
    assert MutexLinked(s, n) && Queued(s, n);
    forall w | w in s.mutexes[n].waiters
      ensures w != t && w in s.stamps
    {
      assert ThreadLinked(s, w);
    }
    QueuedFrame(s, Reprioritized(s, t, p), n);
  }

  lemma ChangeMakesStale(s: State, t: Tid, p: nat, raised: bool)
    requires OffAt(s, t, p) && s.threads[t].pending.Some?
    requires if raised then p <= s.threads[t].cur else s.threads[t].cur <= p
    ensures s.threads[t].pending.value in s.mutexes
    ensures StaleAt(Reprioritized(s, t, p), s.threads[t].pending.value, t, raised)
  {
    var s' := Reprioritized(s, t, p);
    assert ThreadLinked(s, t);
    var m := s.threads[t].pending.value;
    assert MutexLinked(s, m) && Queued(s, m);
    var ws := s.mutexes[m].waiters;
    forall i, j | 0 <= i < j < |ws| && ws[i] != t && ws[j] != t
      ensures Before(s', ws[i], ws[j])
    {
      assert Before(s, ws[i], ws[j]);
    }
    assert raised ==> ws[0] in ws && s'.threads[ws[0]].cur <= s'.mutexes[m].prio;
    forall w | w in ws && (raised ==> w != t)
      ensures s'.mutexes[m].prio <= s'.threads[w].cur
    {
      var i :| 0 <= i < |ws| && ws[i] == w;
      assert i > 0 ==> Before(s, ws[0], ws[i]);
    }
  }

  // ----- what the walk keeps

  lemma WalkStarts(s: State, t: Tid, p: nat, w: Walk)
    requires OffAt(s, t, p) && p != s.threads[t].cur
    requires w == if p < s.threads[t].cur then Raise(t, p) else Lower(t)
    ensures Walked(s, Reprioritized(s, t, p), w, Some(t))
  {
    var s' := Reprioritized(s, t, p);
    ReachesSelf(WaitsFor(s), t);
    assert OnlyPriorities(s, s');
    if w.Lower? && CyclesEven(s) && OnCycle(WaitsFor(s), t) {
      OffOnCycle(s, t, p);
    }
  }

  /** A thread that waits in an even cycle is due no less than its priority. */
  lemma OffOnCycle(s: State, o: Tid, p: nat)
    requires OffAt(s, o, p) && CyclesEven(s) && OnCycle(WaitsFor(s), o)
    ensures p <= s.threads[o].cur
  {
    var w := CyclePredecessor(WaitsFor(s), o);
    assert ThreadLinked(s, w);
    var m := s.threads[w].pending.value;
    assert MutexLinked(s, m) && Queued(s, m);
    var ws := s.mutexes[m].waiters;
    var i :| 0 <= i < |ws| && ws[i] == w;
    assert i > 0 ==> Before(s, ws[0], ws[i]);
  }

  lemma EvenAfterWalk(s: State, s': State)
    requires OnlyPriorities(s, s') && CyclesEven(s) && CyclesKept(s, s')
    ensures CyclesEven(s')
  {
    OnlyPrioritiesKeepsGraph(s, s');
    var g := WaitsFor(s);
    forall w | w in s'.threads && OnCycle(g, w) && w in g && g[w] in s'.threads
      ensures s'.threads[g[w]].cur == s'.threads[w].cur
    {
      CycleSuccessor(g, w);
    }
  }

  lemma WalkedRequeue(s0: State, s: State, w: Walk, x: Tid, m: Mid, k: nat)
    requires Walked(s0, s, w, Some(x)) && CanRequeue(s, x, m, k, w.Raise?)
    ensures Walked(s0, Requeued(s, x, m, k), w, None)
  {
    var s' := Requeued(s, x, m, k);
    RequeuedLinked(s, x, m, k, w.Raise?);
    OnlyPrioritiesTransitive(s0, s, s');
    forall t | t in s0.threads
      ensures MovedBy(s0, s', w, t) && Reenters(s0, s', t)
    {
      assert MovedBy(s0, s, w, t);
      assert t != x ==> Reenters(s0, s, t);
    }
  }

  /** The walk may give `o` its new priority `p`. */
  ghost predicate CanChange(s0: State, s: State, w: Walk, o: Tid, p: nat) {
    && Walked(s0, s, w, None) && OffAt(s, o, p) && Reaches(WaitsFor(s0), w.start, o)
    && if w.Raise? then p == w.prio < s.threads[o].cur else s.threads[o].cur < p
  }

  lemma ChangeMoves(s0: State, s: State, w: Walk, o: Tid, p: nat, t: Tid)
    requires CanChange(s0, s, w, o, p) && t in s0.threads
    ensures var s' := Reprioritized(s, o, p);
      && t in s'.threads && MovedBy(s0, s', w, t)
      && (if t == o then s'.threads[t].cur != s0.threads[t].cur else Reenters(s0, s', t))
  {
    hide Linked, AllQueuedBut, AllEffectiveBut, InRange, IsEffective, Reaches, WaitsFor;
    assert MovedBy(s0, s, w, t) && Reenters(s0, s, t);
  }

  lemma StopsAtCycle(s0: State, s: State, w: Walk, o: Tid, p: nat)
    requires CanChange(s0, s, w, o, p) && w.Lower? && CyclesEven(s0)
    ensures !OnCycle(WaitsFor(s0), o)
  {
    hide MovedBy, Reenters, Linked, AllQueuedBut, AllEffectiveBut, InRange, IsEffective, Reaches, OnlyPriorities, WaitsFor, OnCycle, CyclesEven, CyclesKept;
    EvenAfterWalk(s0, s);
    OnlyPrioritiesKeepsGraph(s0, s);
    if OnCycle(WaitsFor(s), o) {
      OffOnCycle(s, o, p);
    }
  }

  lemma ChangeKeepsCycles(s0: State, s: State, o: Tid, p: nat)
    requires OnlyPriorities(s0, s) && CyclesKept(s0, s) && o in s.threads && !OnCycle(WaitsFor(s0), o)
    ensures CyclesKept(s0, Reprioritized(s, o, p))
  {
    hide WaitsFor, OnCycle;
  }

  lemma WalkedChange(s0: State, s: State, w: Walk, o: Tid, p: nat)
    requires CanChange(s0, s, w, o, p)
    ensures Walked(s0, Reprioritized(s, o, p), w, Some(o))
  {
    var s' := Reprioritized(s, o, p);
    OnlyPrioritiesTransitive(s0, s, s');
    if w.Lower? && CyclesEven(s0) {
      StopsAtCycle(s0, s, w, o, p);
      ChangeKeepsCycles(s0, s, o, p);
    }
    hide OffAt, MovedBy, Reenters, CyclesKept, CyclesEven, Reaches, WaitsFor;
    forall t | t in s0.threads
      ensures MovedBy(s0, s', w, t) && (t == o || Reenters(s0, s', t))
      ensures t == o ==> s'.threads[t].cur != s0.threads[t].cur
    {
      ChangeMoves(s0, s, w, o, p, t);
    }
  }

  /** A raising walk hands the priority of `x` on. */
  lemma RequeuedHandsOn(s: State, x: Tid, m: Mid, k: nat, p: nat)
    requires CanRequeue(s, x, m, k, true) && s.mutexes[m].owner.Some? && s.mutexes[m].owner.value in s.threads
    requires IsEffective(Requeued(s, x, m, k), s.mutexes[m].owner.value, p) && p < s.threads[s.mutexes[m].owner.value].cur
    ensures p == s.threads[x].cur
  {
    var o := s.mutexes[m].owner.value;
    assert Effective(s, o) && ThreadLinked(s, o) && StaleAt(s, m, x, true);
    RequeuedMembers(s, x, m, k, true);
    var ws := Requeued(s, x, m, k).mutexes[m].waiters;
    assert ws[0] in ws;
    assert m in s.threads[o].taken by {
      assert MutexLinked(s, m);
    }
  }

  lemma WalkedTurn(s0: State, s: State, w: Walk, x: Tid, m: Mid, k: nat, o: Tid, p: nat)
    requires Walked(s0, s, w, Some(x)) && CanRequeue(s, x, m, k, w.Raise?)
    requires s.mutexes[m].owner == Some(o) && o in s.threads && IsEffective(Requeued(s, x, m, k), o, p)
    ensures Walked(s0, Reprioritized(Requeued(s, x, m, k), o, p), w, if p == s.threads[o].cur then None else Some(o))
  {
    hide OffAt, IsEffective, MovedBy, Reenters, OnlyPriorities, CyclesKept, CyclesEven, Reaches, WaitsFor;
    var s1 := Requeued(s, x, m, k);
    WalkedRequeue(s0, s, w, x, m, k);
    RequeuedOff(s, x, m, k, w.Raise?, p);
    if p == s.threads[o].cur {
      assert Reprioritized(s1, o, p) == s1;
    } else {
      TurnReaches(s0, s, w, x, m, k, o);
      if w.Raise? {
        RequeuedHandsOn(s, x, m, k, p);
      }
      hide Walked;
      WalkedChange(s0, s1, w, o, p);
    }
  }

  /** The owner is up the chain, and a raising walk has given `x` the priority it hands on. */
  lemma TurnReaches(s0: State, s: State, w: Walk, x: Tid, m: Mid, k: nat, o: Tid)
    requires Walked(s0, s, w, Some(x)) && CanRequeue(s, x, m, k, w.Raise?)
    requires s.mutexes[m].owner == Some(o) && o in s.threads
    ensures Reaches(WaitsFor(s0), w.start, o)
    ensures w.Raise? ==> s.threads[x].cur == w.prio
  {
    hide AllQueuedBut, AllEffectiveBut, InRange, Linked, StaleAt, Reaches, IsInsertPosition, CyclesEven, CyclesKept;
    OnlyPrioritiesKeepsGraph(s0, s);
    assert MovedBy(s0, s, w, x);
    EdgeFrom(WaitsFor(s), w.start, x);
  }

  lemma EdgeFrom(g: Graph, u: Tid, x: Tid)
    requires Reaches(g, u, x) && x in g
    ensures Reaches(g, u, g[x])
  {
    ReachesSelf(g, g[x]);
    EdgeReaches(g, x, g[x]);
    ReachesTransitive(g, u, x, g[x]);
  }

  /** A thread that waits for nobody need not be re-queued. */
  lemma WalkedAll(s0: State, s: State, w: Walk, x: Tid)
    requires Walked(s0, s, w, Some(x)) && Linked(s) && x in s.threads
    requires s.threads[x].pending.None? || !s.threads[x].suspended
    ensures Walked(s0, s, w, None)
  {
    assert ThreadLinked(s, x);
    forall t | t in s0.threads
      ensures Reenters(s0, s, t)
    {
      assert t != x ==> Reenters(s0, s, t);
    }
  }

  // ----- the measure of the walk

  ghost function Total(threads: map<Tid, Thread>, ts: set<Tid>): nat
    requires ts <= threads.Keys
  {
    if ts == {} then 0 else
      var t :| t in ts;
      threads[t].cur + Total(threads, ts - {t})
  }

  lemma {:induction false} TotalSplit(threads: map<Tid, Thread>, ts: set<Tid>, x: Tid)
    requires ts <= threads.Keys && x in ts
    ensures Total(threads, ts) == threads[x].cur + Total(threads, ts - {x})
    decreases ts
  {
    var t :| t in ts && Total(threads, ts) == threads[t].cur + Total(threads, ts - {t});
    if t != x {
      TotalSplit(threads, ts - {t}, x);
      TotalSplit(threads, ts - {x}, t);
      assert ts - {t} - {x} == ts - {x} - {t};
    }
  }

  lemma {:induction false} TotalFrame(threads: map<Tid, Thread>, threads': map<Tid, Thread>, ts: set<Tid>)
    requires ts <= threads.Keys && ts <= threads'.Keys
    requires forall t :: t in ts ==> threads'[t].cur == threads[t].cur
    ensures Total(threads', ts) == Total(threads, ts)
    decreases ts
  {
    if ts != {} {
      var t :| t in ts;
      TotalSplit(threads, ts, t);
      TotalSplit(threads', ts, t);
      TotalFrame(threads, threads', ts - {t});
    }
  }

  lemma {:induction false} TotalBounded(threads: map<Tid, Thread>, ts: set<Tid>)
    requires ts <= threads.Keys && forall t :: t in ts ==> threads[t].cur <= NO_WAITER
    ensures Total(threads, ts) <= NO_WAITER * |ts|
    decreases ts
  {
    if ts != {} {
      var t :| t in ts;
      TotalSplit(threads, ts, t);
      TotalBounded(threads, ts - {t});
    }
  }

  /** How far the priorities still can move in the direction of the walk. */
  ghost function Slack(s: State, raised: bool): int {
    var total := Total(s.threads, s.threads.Keys);
    if raised then total else NO_WAITER * |s.threads.Keys| - total
  }

  lemma SlackShrinks(s: State, t: Tid, p: nat, raised: bool)
    requires t in s.threads && InRange(s) && InRange(Reprioritized(s, t, p))
    requires if raised then p < s.threads[t].cur else s.threads[t].cur < p
    ensures 0 <= Slack(Reprioritized(s, t, p), raised) < Slack(s, raised)
  {
    var s' := Reprioritized(s, t, p);
    var ts := s.threads.Keys;
    assert s'.threads.Keys == ts;
    TotalSplit(s.threads, ts, t);
    TotalSplit(s'.threads, ts, t);
    TotalFrame(s.threads, s'.threads, ts - {t});
    TotalBounded(s'.threads, ts);
  }

  lemma WalkFacts(s: State, x: Tid, raised: bool)
    requires WalkAt(s, x, raised) && s.threads[x].pending.Some?
    ensures var m := s.threads[x].pending.value;
      && m in s.mutexes && s.mutexes[m].owner.Some? && s.mutexes[m].owner.value in s.threads
      && (forall w :: w in s.mutexes[m].waiters ==> w in s.threads)
      && (forall w :: w in Without(s.mutexes[m].waiters, x) ==> w in s.threads)
      && (forall n :: n in s.threads[s.mutexes[m].owner.value].taken ==> n in s.mutexes)
  {
    assert ThreadLinked(s, x);
    var m := s.threads[x].pending.value;
    assert MutexLinked(s, m);
    assert ThreadLinked(s, s.mutexes[m].owner.value);
    WithoutMembers(s.mutexes[m].waiters, x);
  }

  /** Both outcomes of a turn: the walk goes on at the owner, with less slack, or has restored the invariant. */
  lemma TurnOutcome(s: State, x: Tid, m: Mid, k: nat, raised: bool, o: Tid, p: nat)
    requires CanRequeue(s, x, m, k, raised) && s.mutexes[m].owner == Some(o) && o in s.threads
    requires IsEffective(Requeued(s, x, m, k), o, p)
    ensures var s' := Reprioritized(Requeued(s, x, m, k), o, p);
      if p == s.threads[o].cur then Inv(s') && Slack(s', raised) == Slack(s, raised)
      else WalkAt(s', o, raised) && 0 <= Slack(s', raised) < Slack(s, raised)
  {
    var s1 := Requeued(s, x, m, k);
    RequeuedOff(s, x, m, k, raised, p);
    assert s1.threads == s.threads && Slack(s1, raised) == Slack(s, raised);
    if p == s.threads[o].cur {
      OffByNothing(s1, o, p);
      assert Reprioritized(s1, o, p) == s1;
    } else {
      hide CanRequeue, IsEffective;
      ChangeStartsWalk(s1, o, p, raised);
      hide Slack;
      SlackShrinks(s1, o, p, raised);
    }
  }

  lemma OnlyPrioritiesTransitive(s: State, s': State, s'': State)
    requires OnlyPriorities(s, s') && OnlyPriorities(s', s'')
    ensures OnlyPriorities(s, s'')
  {
  }

  /** A walk that has nobody left to tell has restored the invariant. */
  lemma WalkEnds(s: State, x: Tid, raised: bool)
    requires WalkAt(s, x, raised) && (s.threads[x].pending.None? || !s.threads[x].suspended)
    ensures Inv(s)
  {
    assert ThreadLinked(s, x);
  }

  /** If the owner already runs at its effective priority, re-queueing was the last thing to do. */
  lemma OffByNothing(s: State, o: Tid, p: nat)
    requires OffAt(s, o, p) && p == s.threads[o].cur
    ensures Inv(s)
  {
    forall t | t in s.threads
      ensures Effective(s, t)
    {
    }
  }

  // ----- taking, on states

  /** `t` may call the mutex functions: it exists and runs. */
  ghost predicate CanCall(s: State, t: Tid, m: Mid) {
    t in s.threads && !s.threads[t].suspended && m in s.mutexes
  }

  /** The free mutex `m` goes to `t`. */
  ghost function Acquired(s: State, t: Tid, m: Mid): State
    requires t in s.threads && m in s.mutexes
  {
    s.(threads := s.threads[t := s.threads[t].(taken := [m] + s.threads[t].taken)],
       mutexes := s.mutexes[m := s.mutexes[m].(owner := Some(t), hold := 1, prio := NO_WAITER)])
  }

  lemma AcquiredLinked(s: State, t: Tid, m: Mid)
    requires Inv(s) && CanCall(s, t, m) && s.mutexes[m].owner.None?
    ensures Linked(Acquired(s, t, m))
  {
    var s' := Acquired(s, t, m);
    assert MutexLinked(s, m);
    forall n | n in s'.mutexes
      ensures MutexLinked(s', n)
    {
      assert MutexLinked(s, n);
    }
    forall u | u in s'.threads
      ensures ThreadLinked(s', u)
    {
      assert ThreadLinked(s, u);
    }
  }

  lemma AcquiredKeepsInv(s: State, t: Tid, m: Mid)
    requires Inv(s) && CanCall(s, t, m) && s.mutexes[m].owner.None?
    ensures Inv(Acquired(s, t, m)) && WaitsFor(Acquired(s, t, m)) == WaitsFor(s)
  {
    var s' := Acquired(s, t, m);
    AcquiredLinked(s, t, m);
    assert MutexLinked(s, m) && Queued(s, m);
    forall n | n in s'.mutexes
      ensures Queued(s', n)
    {
      assert Queued(s, n);
      QueuedSameCur(s, s', n);
    }
    forall u | u in s'.threads
      ensures Effective(s', u)
    {
      assert ThreadLinked(s, u) && Effective(s, u);
      KeepsSource(s, s', u);
    }
    AcquiredGraph(s, t, m);
  }

  lemma AcquiredGraph(s: State, t: Tid, m: Mid)
    requires Inv(s) && CanCall(s, t, m) && s.mutexes[m].owner.None?
    ensures WaitsFor(Acquired(s, t, m)) == WaitsFor(s)
  {
    var s' := Acquired(s, t, m);
    assert MutexLinked(s, m);
    forall u | u in s.threads && s.threads[u].pending.Some?
      ensures s.threads[u].pending.value != m
    {
      assert ThreadLinked(s, u);
    }
  }

  /** A thread stays effective if no mutex became more urgent than it, and the source of its priority is still there. */
  lemma KeepsSource(s: State, s': State, u: Tid)
    requires u in s.threads && u in s'.threads && Effective(s, u)
    requires s'.threads[u].init == s.threads[u].init && s'.threads[u].cur == s.threads[u].cur
    requires forall n :: n in s'.threads[u].taken && n in s'.mutexes ==>
               s.threads[u].cur <= s'.mutexes[n].prio
    requires forall n :: n in s.threads[u].taken && n in s.mutexes && s.mutexes[n].prio == s.threads[u].cur
                         && s.threads[u].cur != s.threads[u].init ==>
               n in s'.threads[u].taken && n in s'.mutexes && s'.mutexes[n].prio == s.mutexes[n].prio
    ensures Effective(s', u)
  {
  }

  /** `t` suspends on `m` at position `k` of its wait list; `m` becomes as urgent as `t` if it was less. */
  ghost function Suspended(s: State, t: Tid, m: Mid, k: nat): State
    requires t in s.threads && m in s.mutexes && k <= |s.mutexes[m].waiters|
  {
    var mx, p := s.mutexes[m], s.threads[t].cur;
    State(s.threads[t := s.threads[t].(suspended := true, pending := Some(m))],
          s.mutexes[m := mx.(waiters := InsertAt(mx.waiters, k, t), prio := if p < mx.prio then p else mx.prio)],
          s.stamps[t := s.clock],
          s.clock + 1)
  }

  ghost predicate CanSuspend(s: State, t: Tid, m: Mid, k: nat) {
    && Inv(s) && CanCall(s, t, m)
    && s.mutexes[m].owner.Some? && s.mutexes[m].owner != Some(t)
    && s.mutexes[m].owner.value in s.threads
    && IsInsertPosition(s.threads, s.mutexes[m].waiters, s.threads[t].cur, k)
  }

  lemma SuspendedLinked(s: State, t: Tid, m: Mid, k: nat)
    requires CanSuspend(s, t, m, k)
    ensures Linked(Suspended(s, t, m, k)) && InRange(Suspended(s, t, m, k))
  {
    var s' := Suspended(s, t, m, k);
    assert ThreadLinked(s, t) && MutexLinked(s, m);
    InsertAtMembers(s.mutexes[m].waiters, k, t);
    InsertAtDistinct(s.mutexes[m].waiters, k, t);
    forall u | u in s'.threads
      ensures ThreadLinked(s', u)
    {
      assert ThreadLinked(s, u);
    }
    forall n | n in s'.mutexes
      ensures MutexLinked(s', n)
    {
      assert MutexLinked(s, n);
    }
  }

  lemma SuspendedQueued(s: State, t: Tid, m: Mid, k: nat)
    requires CanSuspend(s, t, m, k)
    ensures AllQueuedBut(Suspended(s, t, m, k), None)
  {
    var s' := Suspended(s, t, m, k);
    forall n | n in s'.mutexes
      ensures Queued(s', n)
    {
      assert MutexLinked(s, n) && Queued(s, n) && ThreadLinked(s, t);
      forall w | w in s.mutexes[n].waiters
        ensures w != t && w in s.stamps
      {
        assert ThreadLinked(s, w);
      }
      if n == m {
        SortedFrame(s, s', s.mutexes[m].waiters);
        InsertKeepsSorted(s', s.mutexes[m].waiters, t, k);
      } else {
        QueuedFrame(s, s', n);
      }
    }
  }

  lemma SuspendedEffective(s: State, t: Tid, m: Mid, k: nat)
    requires CanSuspend(s, t, m, k)
    ensures var s', o := Suspended(s, t, m, k), s.mutexes[m].owner.value;
      && AllEffectiveBut(s', Some(o))
      && (s.threads[t].cur < s.threads[o].cur ==> IsEffective(s', o, s.threads[t].cur))
      && (s.threads[t].cur >= s.threads[o].cur ==> Effective(s', o))
      && (s.threads[t].cur >= s.mutexes[m].prio ==> s.threads[t].cur >= s.threads[o].cur)
  {
    var s', o := Suspended(s, t, m, k), s.mutexes[m].owner.value;
    forall u | u in s'.threads && u != o
      ensures Effective(s', u)
    {
      assert ThreadLinked(s, u) && Effective(s, u);
      KeepsSource(s, s', u);
    }
    assert ThreadLinked(s, o) && MutexLinked(s, m) && Effective(s, o);
    assert m in s'.threads[o].taken && m in s'.mutexes;
    if s.threads[t].cur >= s.threads[o].cur {
      KeepsSource(s, s', o);
    }
  }

  lemma SuspendedGraph(s: State, t: Tid, m: Mid, k: nat)
    requires CanSuspend(s, t, m, k)
    ensures t !in WaitsFor(s)
    ensures WaitsFor(Suspended(s, t, m, k)) == WaitsFor(s)[t := s.mutexes[m].owner.value]
  {
    assert ThreadLinked(s, t);
  }

  /** After suspending, either all is well or the owner is too little urgent. */
  lemma SuspendStep(s: State, t: Tid, m: Mid, k: nat)
    requires CanSuspend(s, t, m, k)
    ensures var s', o := Suspended(s, t, m, k), s.mutexes[m].owner.value;
      && (if s.threads[t].cur < s.mutexes[m].prio && s.threads[t].cur < s.threads[o].cur
          then OffAt(s', o, s.threads[t].cur)
          else Inv(s'))
      && WaitsFor(s') == WaitsFor(s)[t := o]
      && (Acyclic(WaitsFor(s')) <==> Acyclic(WaitsFor(s)) && !Reaches(WaitsFor(s), o, t))
  {
    var s', o := Suspended(s, t, m, k), s.mutexes[m].owner.value;
    SuspendedLinked(s, t, m, k);
    SuspendedQueued(s, t, m, k);
    SuspendedEffective(s, t, m, k);
    SuspendedGraph(s, t, m, k);
    NewEdgeClosesCycleIff(WaitsFor(s), t, o);
    if !(s.threads[t].cur < s.mutexes[m].prio && s.threads[t].cur < s.threads[o].cur) {
      OffByNothing(s', o, s'.threads[o].cur);
    }
  }

  // ----- leaving a wait list without the mutex, on states

  ghost function HeadPriority(threads: map<Tid, Thread>, ws: seq<Tid>): nat {
    if ws != [] && ws[0] in threads then threads[ws[0]].cur else NO_WAITER
  }

  /** `u` leaves the wait list of `m` and runs again, without having got `m`. */
  ghost function Dropped(s: State, u: Tid, m: Mid): State
    requires u in s.threads && m in s.mutexes
  {
    var ws := Without(s.mutexes[m].waiters, u);
    s.(threads := s.threads[u := s.threads[u].(suspended := false, pending := None)],
       mutexes := s.mutexes[m := s.mutexes[m].(waiters := ws, prio := HeadPriority(s.threads, ws))])
  }

  ghost predicate CanDrop(s: State, u: Tid, m: Mid) {
    && Inv(s) && u in s.threads && s.threads[u].pending == Some(m) && m in s.mutexes
    && s.mutexes[m].owner.Some? && s.mutexes[m].owner.value in s.threads
    && s.mutexes[m].owner != Some(u) && u in s.mutexes[m].waiters
  }

  lemma DroppedLinked(s: State, u: Tid, m: Mid)
    requires CanDrop(s, u, m)
    ensures Linked(Dropped(s, u, m)) && InRange(Dropped(s, u, m))
  {
    var s' := Dropped(s, u, m);
    assert MutexLinked(s, m);
    WithoutMembers(s.mutexes[m].waiters, u);
    forall t | t in s'.threads
      ensures ThreadLinked(s', t)
    {
      assert ThreadLinked(s, t);
    }
    forall n | n in s'.mutexes
      ensures MutexLinked(s', n)
    {
      assert MutexLinked(s, n);
    }
  }

  lemma DroppedAtMutex(s: State, u: Tid, m: Mid)
    requires CanDrop(s, u, m)
    ensures Queued(Dropped(s, u, m), m)
    ensures s.mutexes[m].prio <= Dropped(s, u, m).mutexes[m].prio
    ensures s.mutexes[m].prio < Dropped(s, u, m).mutexes[m].prio ==> s.mutexes[m].prio == s.threads[u].cur
  {
    var s' := Dropped(s, u, m);
    assert MutexLinked(s, m) && Queued(s, m);
    var ws := s.mutexes[m].waiters;
    var i := WithoutSplits(ws, u);
    var rest := Without(ws, u);
    forall a, b | 0 <= a < b < |rest|
      ensures Before(s', rest[a], rest[b])
    {
      assert Before(s, ws[if a < i then a else a + 1], ws[if b < i then b else b + 1]);
    }
    if rest != [] {
      assert rest[0] == ws[if 0 < i then 0 else 1];
      assert i == 0 ==> Before(s, ws[0], ws[1]);
    }
  }

  lemma DroppedQueued(s: State, u: Tid, m: Mid)
    requires CanDrop(s, u, m)
    ensures AllQueuedBut(Dropped(s, u, m), None)
  {
    var s' := Dropped(s, u, m);
    DroppedAtMutex(s, u, m);
    forall n | n in s'.mutexes
      ensures Queued(s', n)
    {
      if n != m {
        assert Queued(s, n);
        QueuedSameCur(s, s', n);
      }
    }
  }

  /** Unless the owner ran at the priority of `u`, it need not change. */
  lemma DroppedEffective(s: State, u: Tid, m: Mid)
    requires CanDrop(s, u, m)
    ensures var s', o := Dropped(s, u, m), s.mutexes[m].owner.value;
      && AllEffectiveBut(s', Some(o))
      && (s.threads[o].cur != s.threads[u].cur ==> Effective(s', o))
  {
    var s', o := Dropped(s, u, m), s.mutexes[m].owner.value;
    DroppedAtMutex(s, u, m);
    forall t | t in s'.threads && t != o
      ensures Effective(s', t)
    {
      assert ThreadLinked(s, t) && Effective(s, t);
      KeepsSource(s, s', t);
    }
    assert Effective(s, o) && MutexLinked(s, m);
    if s.threads[o].cur != s.threads[u].cur {
      KeepsSource(s, s', o);
    }
  }

  lemma DroppedGraph(s: State, u: Tid, m: Mid)
    requires CanDrop(s, u, m)
    ensures WaitsFor(Dropped(s, u, m)) == WaitsFor(s) - {u}
  {
  }

  /** After a waiter has left, either all is well or the owner, which ran at its priority, may be too urgent. */
  lemma DropStep(s: State, u: Tid, m: Mid)
    requires CanDrop(s, u, m)
    ensures var s', o := Dropped(s, u, m), s.mutexes[m].owner.value;
      && (s.threads[o].cur != s.threads[u].cur ==> Inv(s'))
      && (forall p :: IsEffective(s', o, p) ==> OffAt(s', o, p) && s.threads[o].cur <= p)
      && (forall n :: n in s'.threads[o].taken ==> n in s'.mutexes)
      && WaitsFor(s') == WaitsFor(s) - {u}
      && (Acyclic(WaitsFor(s)) ==> Acyclic(WaitsFor(s')))
  {
    var s', o := Dropped(s, u, m), s.mutexes[m].owner.value;
    DroppedLinked(s, u, m);
    DroppedQueued(s, u, m);
    DroppedEffective(s, u, m);
    DroppedGraph(s, u, m);
    DroppedAtMutex(s, u, m);
    assert ThreadLinked(s', o) && Effective(s, o);
    forall p | IsEffective(s', o, p)
      ensures s.threads[o].cur <= p
    {
      EffectiveAntitone(s, s', o, p);
    }
    if Acyclic(WaitsFor(s)) {
      NewEdgesIntoSinksKeepAcyclic(WaitsFor(s), WaitsFor(s'));
    }
    if s.threads[o].cur != s.threads[u].cur {
      OffByNothing(s', o, s'.threads[o].cur);
    }
  }

  // ----- releasing, on states

  /** `t` gives `m` up for good and runs at `p`. */
  ghost function Untaken(s: State, t: Tid, m: Mid, p: nat): State
    requires t in s.threads && m in s.mutexes
  {
    s.(threads := s.threads[t := s.threads[t].(taken := Without(s.threads[t].taken, m), cur := p)],
       mutexes := s.mutexes[m := s.mutexes[m].(hold := 0)])
  }

  /** The head of the wait list of `m`, if any, becomes its owner and runs again. */
  ghost function PassedOn(s: State, m: Mid): State
    requires m in s.mutexes
  {
    var mx := s.mutexes[m];
    if mx.waiters == [] || mx.waiters[0] !in s.threads then
      s.(mutexes := s.mutexes[m := mx.(owner := None, prio := NO_WAITER)])
    else
      var next := mx.waiters[0];
      var nx := s.threads[next].(suspended := false, pending := None, taken := [m] + s.threads[next].taken);
      s.(threads := s.threads[next := nx],
         mutexes := s.mutexes[m := Mutex(Some(next), 1, HeadPriority(s.threads, mx.waiters[1..]), mx.waiters[1..])])
  }

  ghost function Released(s: State, t: Tid, m: Mid, p: nat): State
    requires t in s.threads && m in s.mutexes
  {
    PassedOn(Untaken(s, t, m, p), m)
  }

  /** `p` is due to `t` once `m` is gone: what is left if `t` ran at the priority of `m`, no change otherwise. */
  ghost predicate IsDueOnRelease(s: State, t: Tid, m: Mid, p: nat)
    requires t in s.threads && m in s.mutexes
  {
    if s.threads[t].cur == s.mutexes[m].prio
    then IsEffective(s.(threads := s.threads[t := s.threads[t].(taken := Without(s.threads[t].taken, m))]), t, p)
    else p == s.threads[t].cur
  }

  ghost predicate CanRelease(s: State, t: Tid, m: Mid, p: nat) {
    && Inv(s) && CanCall(s, t, m) && s.mutexes[m].owner == Some(t)
    && (forall w :: w in s.mutexes[m].waiters ==> w in s.threads && w != t)
    && s.threads[t].pending.None?
    && m in s.threads[t].taken
    && s.mutexes[m].hold == 1
    && IsDueOnRelease(s, t, m, p)
  }

  lemma ReleasedThreadsLinked(s: State, t: Tid, m: Mid, p: nat, u: Tid)
    requires CanRelease(s, t, m, p) && u in s.threads
    ensures ThreadLinked(Released(s, t, m, p), u)
  {
    assert ThreadLinked(s, u) && ThreadLinked(s, t) && MutexLinked(s, m);
    WithoutMembers(s.threads[t].taken, m);
  }

  lemma ReleasedMutexesLinked(s: State, t: Tid, m: Mid, p: nat, n: Mid)
    requires CanRelease(s, t, m, p) && n in s.mutexes
    ensures MutexLinked(Released(s, t, m, p), n)
  {
    assert MutexLinked(s, n) && MutexLinked(s, m) && ThreadLinked(s, t);
    WithoutMembers(s.threads[t].taken, m);
    if n == m && s.mutexes[m].waiters != [] {
      var ws := s.mutexes[m].waiters;
      forall w | w in ws[1..]
        ensures w != ws[0]
      {
      }
    }
  }

  lemma ReleasedQueued(s: State, t: Tid, m: Mid, p: nat, n: Mid)
    requires CanRelease(s, t, m, p) && n in s.mutexes
    ensures Queued(Released(s, t, m, p), n)
  {
    var s' := Released(s, t, m, p);
    assert MutexLinked(s, n) && Queued(s, n);
    if n == m {
      var ws := s.mutexes[m].waiters;
      if ws != [] {
        var rest := ws[1..];
        forall i, j | 0 <= i < j < |rest|
          ensures Before(s', rest[i], rest[j])
        {
          assert Before(s, ws[i + 1], ws[j + 1]);
        }
      }
    } else {
      forall w | w in s.mutexes[n].waiters
        ensures w in s.stamps && w != t
      {
        assert ThreadLinked(s, w);
      }
      QueuedFrame(s, s', n);
    }
  }

  lemma ReleasedEffective(s: State, t: Tid, m: Mid, p: nat, u: Tid)
    requires CanRelease(s, t, m, p) && u in s.threads
    ensures Effective(Released(s, t, m, p), u) && p <= NO_WAITER
  {
    if u != t {
      ReleasedOther(s, t, m, p, u);
    } else {
      ReleasedOwner(s, t, m, p);
    }
  }

  lemma ReleasedOther(s: State, t: Tid, m: Mid, p: nat, u: Tid)
    requires CanRelease(s, t, m, p) && u in s.threads && u != t
    ensures Effective(Released(s, t, m, p), u)
  {
    var ws := s.mutexes[m].waiters;
    assert ThreadLinked(s, u) && Effective(s, u) && MutexLinked(s, m) && Queued(s, m);
    if u in ws && u == ws[0] {
      assert 1 < |ws| ==> Before(s, ws[0], ws[1]);
    }
    KeepsSource(s, Released(s, t, m, p), u);
  }

  lemma ReleasedOwner(s: State, t: Tid, m: Mid, p: nat)
    requires CanRelease(s, t, m, p)
    ensures Effective(Released(s, t, m, p), t) && p <= NO_WAITER
  {
    var s' := Released(s, t, m, p);
    assert ThreadLinked(s, t) && Effective(s, t) && MutexLinked(s, m) && Queued(s, m);
    WithoutMembers(s.threads[t].taken, m);
    if s.threads[t].cur != s.mutexes[m].prio {
      KeepsSource(s, s', t);
    } else {
      var mid := s.(threads := s.threads[t := s.threads[t].(taken := Without(s.threads[t].taken, m))]);
      assert forall n :: n in s'.threads[t].taken ==> s'.mutexes[n] == mid.mutexes[n];
    }
  }

  /** The waits after the release: the new owner waits no more, and the other waiters of `m` wait for it. */
  lemma ReleasedEdge(s: State, t: Tid, m: Mid, p: nat, u: Tid)
    requires CanRelease(s, t, m, p)
    ensures var g, g', ws := WaitsFor(s), WaitsFor(Released(s, t, m, p)), s.mutexes[m].waiters;
      && (u in g' <==> u in g && (ws != [] ==> u != ws[0]))
      && (u in g' ==> g'[u] == if u in ws then ws[0] else g[u])
  {
    var ws := s.mutexes[m].waiters;
    assert MutexLinked(s, m);
    if u in s.threads && s.threads[u].pending.Some? {
      assert ThreadLinked(s, u);
      assert MutexLinked(s, s.threads[u].pending.value);
    }
  }

  lemma ReleasedAcyclic(s: State, t: Tid, m: Mid, p: nat)
    requires CanRelease(s, t, m, p)
    ensures Acyclic(WaitsFor(s)) ==> Acyclic(WaitsFor(Released(s, t, m, p)))
  {
    var g, g' := WaitsFor(s), WaitsFor(Released(s, t, m, p));
    forall u | u in g'
      ensures (u in g && g[u] == g'[u]) || g'[u] !in g'
    {
      ReleasedEdge(s, t, m, p, u);
      ReleasedEdge(s, t, m, p, g'[u]);
    }
    if Acyclic(g) {
      NewEdgesIntoSinksKeepAcyclic(g, g');
    }
  }

  lemma ReleaseStep(s: State, t: Tid, m: Mid, p: nat)
    requires CanRelease(s, t, m, p)
    ensures Inv(Released(s, t, m, p))
    ensures Acyclic(WaitsFor(s)) ==> Acyclic(WaitsFor(Released(s, t, m, p)))
  {
    var s' := Released(s, t, m, p);
    forall u | u in s'.threads
      ensures ThreadLinked(s', u) && Effective(s', u)
    {
      ReleasedThreadsLinked(s, t, m, p, u);
      ReleasedEffective(s, t, m, p, u);
    }
    forall n | n in s'.mutexes
      ensures MutexLinked(s', n) && Queued(s', n)
    {
      ReleasedMutexesLinked(s, t, m, p, n);
      ReleasedQueued(s, t, m, p, n);
    }
    ReleasedEffective(s, t, m, p, t);
    ReleasedAcyclic(s, t, m, p);
  }

  lemma OwnerFacts(s: State, t: Tid, m: Mid)
    requires Inv(s) && t in s.threads && m in s.mutexes && s.mutexes[m].owner == Some(t)
    ensures forall n :: n in Without(s.threads[t].taken, m) ==> n in s.mutexes
    ensures forall w :: w in s.mutexes[m].waiters ==> w in s.threads && w != t
  {
    assert MutexLinked(s, m) && ThreadLinked(s, t);
    WithoutMembers(s.threads[t].taken, m);
  }

  lemma WaiterIsLinked(s: State, u: Tid)
    requires Inv(s) && u in s.threads && s.threads[u].pending.Some?
    ensures CanDrop(s, u, s.threads[u].pending.value)
    ensures forall w :: w in Without(s.mutexes[s.threads[u].pending.value].waiters, u) ==> w in s.threads && w != u
  {
    assert ThreadLinked(s, u);
    var m := s.threads[u].pending.value;
    assert MutexLinked(s, m);
    WithoutMembers(s.mutexes[m].waiters, u);
  }

  lemma CanReleaseHolds(s: State, t: Tid, m: Mid, p: nat)
    requires Inv(s) && CanCall(s, t, m) && s.mutexes[m].owner == Some(t) && s.mutexes[m].hold == 1
    requires IsDueOnRelease(s, t, m, p)
    ensures CanRelease(s, t, m, p)
  {
    assert MutexLinked(s, m) && ThreadLinked(s, t);
  }

  ghost function Rehold(s: State, m: Mid, h: nat): State
    requires m in s.mutexes
  {
    s.(mutexes := s.mutexes[m := s.mutexes[m].(hold := h)])
  }

  lemma ReholdThread(s: State, m: Mid, h: nat, u: Tid)
    requires Inv(s) && m in s.mutexes && u in s.threads
    ensures ThreadLinked(Rehold(s, m, h), u) && Effective(Rehold(s, m, h), u)
  {
    assert ThreadLinked(s, u) && Effective(s, u);
    KeepsSource(s, Rehold(s, m, h), u);
  }

  lemma ReholdMutex(s: State, m: Mid, h: nat, n: Mid)
    requires Inv(s) && m in s.mutexes && s.mutexes[m].owner.Some? && 0 < h <= HOLD_MAX && n in s.mutexes
    ensures MutexLinked(Rehold(s, m, h), n) && Queued(Rehold(s, m, h), n)
  {
    assert MutexLinked(s, n) && Queued(s, n);
    QueuedSameCur(s, Rehold(s, m, h), n);
  }

  lemma HoldChangeKeepsInv(s: State, m: Mid, h: nat)
    requires Inv(s) && m in s.mutexes && s.mutexes[m].owner.Some? && 0 < h <= HOLD_MAX
    ensures Inv(Rehold(s, m, h)) && WaitsFor(Rehold(s, m, h)) == WaitsFor(s)
  {
    hide ThreadLinked, MutexLinked, Queued, Effective;
    forall n | n in s.mutexes
      ensures MutexLinked(Rehold(s, m, h), n) && Queued(Rehold(s, m, h), n)
    {
      ReholdMutex(s, m, h, n);
    }
    forall u | u in s.threads
      ensures ThreadLinked(Rehold(s, m, h), u) && Effective(Rehold(s, m, h), u)
    {
      ReholdThread(s, m, h, u);
    }
  }

  /** `t` starts or stops sleeping on something that is no mutex. */
  ghost function Slept(s: State, t: Tid, asleep: bool): State
    requires t in s.threads
  {
    s.(threads := s.threads[t := s.threads[t].(suspended := asleep)])
  }

  lemma SleptMutex(s: State, t: Tid, asleep: bool, n: Mid)
    requires Inv(s) && t in s.threads && s.threads[t].pending.None? && n in s.mutexes
    ensures MutexLinked(Slept(s, t, asleep), n) && Queued(Slept(s, t, asleep), n)
  {
    assert MutexLinked(s, n) && Queued(s, n);
    QueuedSameCur(s, Slept(s, t, asleep), n);
  }

  lemma SleptThread(s: State, t: Tid, asleep: bool, u: Tid)
    requires Inv(s) && t in s.threads && s.threads[t].pending.None? && u in s.threads
    ensures ThreadLinked(Slept(s, t, asleep), u) && Effective(Slept(s, t, asleep), u)
  {
    assert ThreadLinked(s, u) && Effective(s, u);
    KeepsSource(s, Slept(s, t, asleep), u);
  }

  lemma SleptLinked(s: State, t: Tid, asleep: bool)
    requires Inv(s) && t in s.threads && s.threads[t].pending.None?
    ensures Linked(Slept(s, t, asleep))
  {
    forall n | n in s.mutexes
      ensures MutexLinked(Slept(s, t, asleep), n)
    {
      SleptMutex(s, t, asleep, n);
    }
    forall u | u in s.threads
      ensures ThreadLinked(Slept(s, t, asleep), u)
    {
      SleptThread(s, t, asleep, u);
    }
  }

  lemma SleepKeepsInv(s: State, t: Tid, asleep: bool)
    requires Inv(s) && t in s.threads && s.threads[t].pending.None?
    ensures Inv(Slept(s, t, asleep))
  {
    var s' := Slept(s, t, asleep);
    SleptLinked(s, t, asleep);
    assert AllQueuedBut(s', None) by {
      forall n | n in s'.mutexes
        ensures Queued(s', n)
      {
        SleptMutex(s, t, asleep, n);
      }
    }
    assert AllEffectiveBut(s', None) by {
      forall u | u in s'.threads
        ensures Effective(s', u)
      {
        SleptThread(s, t, asleep, u);
      }
    }
  }

  lemma SleptGraph(s: State, t: Tid, asleep: bool)
    requires t in s.threads
    ensures WaitsFor(Slept(s, t, asleep)) == WaitsFor(s)
  {
  }

  // ----- what the calls do, as their callers see it

  /** Apart from the threads `ts` and mutex `m`, nothing has changed. */
  ghost predicate SameApart(s: State, s': State, ts: set<Tid>, m: Mid) {
    && s'.threads.Keys == s.threads.Keys && s'.mutexes.Keys == s.mutexes.Keys
    && (forall u :: u in s.threads && u !in ts ==> s'.threads[u] == s.threads[u])
    && (forall n :: n in s.mutexes && n != m ==> s'.mutexes[n] == s.mutexes[n])
  }

  /** `t` owns `m`, has taken it `h` times and runs. */
  ghost predicate Holds(s: State, t: Tid, m: Mid, h: nat) {
    && CanCall(s, t, m) && s.threads[t].pending.None?
    && s.mutexes[m].owner == Some(t) && s.mutexes[m].hold == h && m in s.threads[t].taken
  }

  /** Of the taken list of `t`, only whether `m` is on it may have changed. */
  ghost predicate SameTakenBut(s: State, s': State, t: Tid, m: Mid)
    requires t in s.threads && t in s'.threads
  {
    forall n :: n != m ==> (n in s'.threads[t].taken <==> n in s.threads[t].taken)
  }

  /** `t` has got the free mutex `m`. */
  ghost predicate HasTaken(s: State, t: Tid, m: Mid, s': State) {
    && SameApart(s, s', {t}, m) && Holds(s', t, m, 1) && s'.mutexes[m].waiters == []
    && t in s.threads && s'.threads[t] == s.threads[t].(taken := s'.threads[t].taken) && SameTakenBut(s, s', t, m)
  }

  /** The head waiter of `m` has got it from `t` and runs again; without a waiter `m` is free. */
  ghost predicate HandedOn(s: State, t: Tid, m: Mid, s': State)
    requires t in s.threads && m in s.mutexes
  {
    var ws := s.mutexes[m].waiters;
    && SameApart(s, s', if ws == [] then {t} else {t, ws[0]}, m)
    && s'.threads[t] == s.threads[t].(taken := s'.threads[t].taken, cur := s'.threads[t].cur)
    && m !in s'.threads[t].taken && SameTakenBut(s, s', t, m)
    && if ws == [] then s'.mutexes[m] == Mutex(None, 0, NO_WAITER, [])
       else
         var w := ws[0];
         && w != t && w in s.threads && Holds(s', w, m, 1) && s'.mutexes[m].waiters == ws[1..]
         && s'.threads[w] == s.threads[w].(suspended := false, pending := None, taken := s'.threads[w].taken)
         && SameTakenBut(s, s', w, m)
  }

  lemma AcquiredIsTaken(s: State, t: Tid, m: Mid)
    requires Inv(s) && CanCall(s, t, m) && s.mutexes[m].owner.None?
    ensures HasTaken(s, t, m, Acquired(s, t, m))
  {
    assert MutexLinked(s, m) && ThreadLinked(s, t);
  }

  lemma ReleasedIsHandedOn(s: State, t: Tid, m: Mid, p: nat)
    requires CanRelease(s, t, m, p)
    ensures HandedOn(s, t, m, Released(s, t, m, p))
  {
    assert ThreadLinked(s, t) && MutexLinked(s, m);
    WithoutMembers(s.threads[t].taken, m);
  }

  lemma EffectiveIsUnique(s: State, t: Tid, p: nat, q: nat)
    requires t in s.threads && IsEffective(s, t, p) && IsEffective(s, t, q)
    ensures p == q
  {
  }

  /** Taking a free mutex and releasing it again changes nothing. */
  lemma TakeThenRelease(s: State, t: Tid, m: Mid, p: nat)
    requires Inv(s) && CanCall(s, t, m) && s.mutexes[m].owner.None?
    requires CanRelease(Acquired(s, t, m), t, m, p)
    ensures Released(Acquired(s, t, m), t, m, p) == s
  {
    assert MutexLinked(s, m) && Queued(s, m) && Effective(s, t);
    var s1 := Acquired(s, t, m);
    assert Without([m] + s.threads[t].taken, m) == s.threads[t].taken;
    if s1.threads[t].cur == s1.mutexes[m].prio {
      var s2 := s1.(threads := s1.threads[t := s1.threads[t].(taken := s.threads[t].taken)]);
      assert IsEffective(s2, t, s.threads[t].cur) by {
        AcquiredElsewhere(s, t, m);
      }
      EffectiveIsUnique(s2, t, p, s.threads[t].cur);
    }
    assert Released(s1, t, m, p).threads == s.threads;
    assert Released(s1, t, m, p).mutexes == s.mutexes;
  }

  /** A free mutex is nobody's. */
  lemma AcquiredElsewhere(s: State, t: Tid, m: Mid)
    requires Inv(s) && t in s.threads && m in s.mutexes && s.mutexes[m].owner.None?
    ensures m !in s.threads[t].taken
  {
    assert ThreadLinked(s, t);
  }

  /** `t` waits for `m`; priorities, and the order of wait lists, may have followed. */
  ghost predicate HasBlocked(s: State, t: Tid, m: Mid, s': State) {
    && s'.threads.Keys == s.threads.Keys && s'.mutexes.Keys == s.mutexes.Keys && t in s.threads && m in s.mutexes
    && s'.threads[t] == s.threads[t].(suspended := true, pending := Some(m), cur := s'.threads[t].cur)
    && (forall u :: u in s.threads && u != t ==> s'.threads[u] == s.threads[u].(cur := s'.threads[u].cur))
    && (forall n :: n in s.mutexes ==>
          && s'.mutexes[n].owner == s.mutexes[n].owner && s'.mutexes[n].hold == s.mutexes[n].hold
          && forall w :: w in s'.mutexes[n].waiters <==> w in s.mutexes[n].waiters || (n == m && w == t))
  }

  /** `u` waits no more and runs again; priorities, and the order of wait lists, may have followed. */
  ghost predicate HasLeft(s: State, u: Tid, m: Mid, s': State) {
    && s'.threads.Keys == s.threads.Keys && s'.mutexes.Keys == s.mutexes.Keys && u in s.threads && m in s.mutexes
    && s'.threads[u] == s.threads[u].(suspended := false, pending := None, cur := s'.threads[u].cur)
    && (forall t :: t in s.threads && t != u ==> s'.threads[t] == s.threads[t].(cur := s'.threads[t].cur))
    && (forall n :: n in s.mutexes ==>
          && s'.mutexes[n].owner == s.mutexes[n].owner && s'.mutexes[n].hold == s.mutexes[n].hold
          && forall w :: w in s'.mutexes[n].waiters <==> w in s.mutexes[n].waiters && !(n == m && w == u))
  }

  lemma SuspendedHasBlocked(s: State, t: Tid, m: Mid, k: nat, s': State)
    requires CanSuspend(s, t, m, k) && OnlyPriorities(Suspended(s, t, m, k), s')
    ensures HasBlocked(s, t, m, s')
  {
    InsertAtMembers(s.mutexes[m].waiters, k, t);
    hide Inv, InsertAt;
  }

  lemma DroppedHasLeft(s: State, u: Tid, m: Mid, s': State)
    requires CanDrop(s, u, m) && OnlyPriorities(Dropped(s, u, m), s')
    ensures HasLeft(s, u, m, s')
  {
    assert MutexLinked(s, m);
    WithoutMembers(s.mutexes[m].waiters, u);
    hide Inv, Without;
  }

  /** The threads and mutexes of the kernel. */
  class MutexSystem {
    var threads: map<Tid, Thread>
    var mutexes: map<Mid, Mutex>
    ghost var stamps: map<Tid, nat>
    ghost var clock: nat

    ghost function St(): State
      reads this
    {
      State(threads, mutexes, stamps, clock)
    }

    /** `_thread_get_mutex_priority`. */
    method GetMutexPriority(t: Tid) returns (p: nat)
      requires t in threads && forall m :: m in threads[t].taken ==> m in mutexes
      ensures IsEffective(St(), t, p)
    {
      p := threads[t].init;
      var taken := threads[t].taken;
      for i := 0 to |taken|
        invariant p <= threads[t].init
        invariant forall j :: 0 <= j < i ==> p <= mutexes[taken[j]].prio
        invariant p == threads[t].init || exists j :: 0 <= j < i && p == mutexes[taken[j]].prio
      {
        if p > mutexes[taken[i]].prio {
          p := mutexes[taken[i]].prio;
        }
      }
    }

    /** The search of `rt_susp_list_enqueue` for a list in priority order. */
    method FindPosition(ws: seq<Tid>, p: nat) returns (k: nat)
      requires forall w :: w in ws ==> w in threads
      ensures IsInsertPosition(threads, ws, p, k)
    {
      k := 0;
      while k < |ws| && p >= threads[ws[k]].cur
        invariant k <= |ws|
        invariant forall i :: 0 <= i < k ==> threads[ws[i]].cur <= p
      {
        k := k + 1;
      }
    }

    /**
     `_thread_update_priority`: re-prioritize `t`, then the owners it waits for, as far as that changes anything. Its
     callers make sure that `priority` is not the one `t` has.
     */
    method UpdatePriority(t: Tid, priority: nat)
      requires OffAt(St(), t, priority) && priority != threads[t].cur
      modifies this
      ensures Inv(St())
      ensures old(priority < threads[t].cur) ==> Walked(old(St()), St(), Raise(t, priority), None)
      ensures old(priority > threads[t].cur) ==> Walked(old(St()), St(), Lower(t), None)
    {
      ghost var raised := priority < threads[t].cur;
      ghost var w, s0 := if raised then Raise(t, priority) else Lower(t), St();
      ChangeStartsWalk(s0, t, priority, raised);
      WalkStarts(s0, t, priority, w);
      threads := threads[t := threads[t].(cur := priority)];
      assert St() == Reprioritized(s0, t, priority);
      var x, ok := t, true;
      while ok && threads[x].suspended
        invariant x in threads
        invariant Walked(s0, St(), w, if ok then Some(x) else None)
        invariant ok ==> WalkAt(St(), x, raised)
        invariant !ok ==> Inv(St())
        decreases Slack(St(), raised), ok
      {
        ghost var s := St();
        if threads[x].pending.Some? {
          ghost var was := x;
          ghost var k;
          x, ok, k := WalkStep(x, raised);
          WalkedTurn(s0, s, w, was, s.threads[was].pending.value, k, x, threads[x].cur);
        } else {
          WalkEnds(s, x, raised);
          WalkedAll(s0, s, w, x);
          ok := false;
        }
      }
      if ok {
        WalkEnds(St(), x, raised);
        WalkedAll(s0, St(), w, x);
      }
    }

    /** `x` leaves the wait list of `m` and enters it again; `_mutex_update_priority` follows. */
    method Requeue(x: Tid, m: Mid) returns (ghost k: nat)
      requires x in threads && m in mutexes
      requires forall w :: w in mutexes[m].waiters ==> w in threads
      requires forall w :: w in Without(mutexes[m].waiters, x) ==> w in threads
      modifies this
      ensures old(IsInsertPosition(threads, Without(mutexes[m].waiters, x), threads[x].cur, k))
      ensures St() == old(Requeued(St(), x, m, k))
    {
      var rest := Without(mutexes[m].waiters, x);
      var pos := FindPosition(rest, threads[x].cur);
      var ws := InsertAt(rest, pos, x);
      mutexes := mutexes[m := mutexes[m].(waiters := ws, prio := threads[ws[0]].cur)];
      stamps, clock := stamps[x := clock], clock + 1;
      k := pos;
    }

    /** One turn of the loop: re-queue `x`, then give the owner of its mutex the priority it is now due. */
    method WalkStep(x: Tid, ghost raised: bool) returns (o: Tid, changed: bool, ghost k: nat)
      requires WalkAt(St(), x, raised) && threads[x].pending.Some?
      modifies this
      ensures var m := old(threads[x].pending.value);
        && old(CanRequeue(St(), x, m, k, raised))
        && o in threads && old(o in threads && mutexes[m].owner == Some(o))
        && IsEffective(old(Requeued(St(), x, m, k)), o, threads[o].cur)
        && St() == Reprioritized(old(Requeued(St(), x, m, k)), o, threads[o].cur)
      ensures changed <==> threads[o].cur != old(threads)[o].cur
      ensures changed ==> WalkAt(St(), o, raised) && 0 <= Slack(St(), raised) < old(Slack(St(), raised))
      ensures !changed ==> Inv(St()) && Slack(St(), raised) == old(Slack(St(), raised))
    {
      ghost var s := St();
      WalkFacts(s, x, raised);
      var m := threads[x].pending.value;
      o := mutexes[m].owner.value;
      k := Requeue(x, m);
      ghost var s1 := St();
      var p := GetMutexPriority(o);
      changed := p != threads[o].cur;
      TurnOutcome(s, x, m, k, raised, o, p);
      if changed {
        threads := threads[o := threads[o].(cur := p)];
      }
      assert St() == Reprioritized(s1, o, p);
    }

    constructor (inits: map<Tid, nat>, mids: set<Mid>)
      requires forall t :: t in inits ==> inits[t] <= NO_WAITER
      ensures threads.Keys == inits.Keys && mutexes.Keys == mids
      ensures forall t :: t in threads ==> threads[t] == Thread(inits[t], inits[t], false, None, [])
      ensures forall m :: m in mutexes ==> mutexes[m] == Mutex(None, 0, NO_WAITER, [])
      ensures Inv(St()) && Acyclic(WaitsFor(St()))
    {
      threads := map t | t in inits :: Thread(inits[t], inits[t], false, None, []);
      mutexes := map m | m in mids :: Mutex(None, 0, NO_WAITER, []);
      stamps, clock := map t | t in inits :: 0, 1;
      new;
      NewEdgesIntoSinksKeepAcyclic(map[], WaitsFor(St()));
    }

    /** `t` suspends on, or is resumed from, something that is no mutex. */
    method Sleep(t: Tid, asleep: bool)
      requires Inv(St()) && t in threads && threads[t].pending.None?
      modifies this`threads
      ensures Inv(St()) && St() == old(Slept(St(), t, asleep)) && WaitsFor(St()) == old(WaitsFor(St()))
      ensures t in threads && threads[t].suspended == asleep
    {
      ghost var s := St();
      threads := threads[t := threads[t].(suspended := asleep)];
      assert St() == Slept(s, t, asleep);
      SleepKeepsInv(s, t, asleep);
      SleptGraph(s, t, asleep);
    }

    /** The owner takes `m` once more, or once less. */
    method SetHold(m: Mid, h: nat)
      requires Inv(St()) && m in mutexes && mutexes[m].owner.Some? && 0 < h <= HOLD_MAX
      modifies this`mutexes
      ensures Inv(St()) && St() == old(Rehold(St(), m, h)) && WaitsFor(St()) == old(WaitsFor(St()))
    {
      HoldChangeKeepsInv(St(), m, h);
      mutexes := mutexes[m := mutexes[m].(hold := h)];
      assert St() == old(Rehold(St(), m, h));
    }

    /** The branch of `_rt_mutex_take` for a free mutex. */
    method Acquire(t: Tid, m: Mid)
      requires Inv(St()) && CanCall(St(), t, m) && mutexes[m].owner.None?
      modifies this
      ensures Inv(St()) && St() == old(Acquired(St(), t, m)) && WaitsFor(St()) == old(WaitsFor(St()))
      ensures HasTaken(old(St()), t, m, St())
    {
      AcquiredKeepsInv(St(), t, m);
      AcquiredIsTaken(St(), t, m);
      mutexes := mutexes[m := mutexes[m].(owner := Some(t), prio := NO_WAITER, hold := 1)];
      threads := threads[t := threads[t].(taken := [m] + threads[t].taken)];
      assert St() == old(Acquired(St(), t, m));
    }

    /** `_rt_mutex_take`, up to the point where the caller runs on or is suspended. */
    method Take(t: Tid, m: Mid, timeout: int) returns (r: TakeResult)
      requires Inv(St()) && CanCall(St(), t, m)
      modifies this
      ensures Inv(St())
      ensures old(mutexes[m].owner == Some(t) && mutexes[m].hold < HOLD_MAX) ==>
                && r == Taken && St() == old(Rehold(St(), m, mutexes[m].hold + 1))
                && threads == old(threads) && mutexes == old(mutexes)[m := old(mutexes[m]).(hold := old(mutexes[m].hold) + 1)]
      ensures old(mutexes[m].owner == Some(t) && mutexes[m].hold == HOLD_MAX) ==> r == HoldOverflow && St() == old(St())
      ensures old(mutexes[m].owner.None?) ==>
                r == Taken && St() == old(Acquired(St(), t, m)) && HasTaken(old(St()), t, m, St())
      ensures old(mutexes[m].owner.Some? && mutexes[m].owner != Some(t)) ==>
                r == if timeout == 0 then WouldBlock else Blocked
      ensures r == WouldBlock ==> St() == old(St())
      ensures r == Blocked ==>
                exists k: nat :: old(CanSuspend(St(), t, m, k))
                  && Walked(old(Suspended(St(), t, m, k)), St(), old(Raise(mutexes[m].owner.value, threads[t].cur)), None)
      ensures r == Blocked ==> HasBlocked(old(St()), t, m, St())
      ensures r != Blocked ==> WaitsFor(St()) == old(WaitsFor(St()))
      ensures r == Blocked ==> old(mutexes[m].owner.Some?)
                               && WaitsFor(St()) == old(WaitsFor(St()))[t := old(mutexes[m].owner.value)]
      ensures r == Blocked ==>
                (Acyclic(WaitsFor(St())) <==>
                 old(Acyclic(WaitsFor(St())) && !Reaches(WaitsFor(St()), mutexes[m].owner.value, t)))
    {
      if mutexes[m].owner == Some(t) {
        assert MutexLinked(St(), m);
        if mutexes[m].hold < HOLD_MAX {
          SetHold(m, mutexes[m].hold + 1);
          r := Taken;
        } else {
          r := HoldOverflow;
        }
      } else if mutexes[m].owner.None? {
        Acquire(t, m);
        r := Taken;
      } else if timeout == 0 {
        r := WouldBlock;
      } else {
        ghost var k := BlockOn(t, m);
        r := Blocked;
      }
    }

    /** The suspending branch of `_rt_mutex_take`. */
    method BlockOn(t: Tid, m: Mid) returns (ghost k: nat)
      requires Inv(St()) && CanCall(St(), t, m) && mutexes[m].owner.Some? && mutexes[m].owner != Some(t)
      modifies this
      ensures Inv(St())
      ensures old(CanSuspend(St(), t, m, k))
        && Walked(old(Suspended(St(), t, m, k)), St(), old(Raise(mutexes[m].owner.value, threads[t].cur)), None)
      ensures HasBlocked(old(St()), t, m, St())
      ensures WaitsFor(St()) == old(WaitsFor(St()))[t := old(mutexes[m].owner.value)]
      ensures Acyclic(WaitsFor(St())) <==>
              old(Acyclic(WaitsFor(St())) && !Reaches(WaitsFor(St()), mutexes[m].owner.value, t))
    {
      ghost var s := St();
      assert MutexLinked(s, m);
      var o, priority, before := mutexes[m].owner.value, threads[t].cur, mutexes[m].prio;
      k := SuspendTo(t, m);
      SuspendStep(s, t, m, k);
      ghost var s' := St();
      NothingWalked(s', Raise(o, priority));
      if priority < before && priority < threads[o].cur {
        UpdatePriority(o, priority);
        OnlyPrioritiesKeepsGraph(s', St());
      }
      SuspendedHasBlocked(s, t, m, k, St());
    }

    /** `rt_thread_suspend_to_list` on `m`, and the update of its priority that follows in `_rt_mutex_take`. */
    method SuspendTo(t: Tid, m: Mid) returns (ghost k: nat)
      requires t in threads && m in mutexes
      requires forall w :: w in mutexes[m].waiters ==> w in threads
      modifies this
      ensures old(IsInsertPosition(threads, mutexes[m].waiters, threads[t].cur, k))
      ensures St() == old(Suspended(St(), t, m, k))
    {
      var priority := threads[t].cur;
      var pos := FindPosition(mutexes[m].waiters, priority);
      k := pos;
      threads := threads[t := threads[t].(suspended := true, pending := Some(m))];
      stamps, clock := stamps[t := clock], clock + 1;
      var mx := mutexes[m];
      mutexes := mutexes[m := mx.(waiters := InsertAt(mx.waiters, pos, t))];
      if priority < mx.prio {
        mutexes := mutexes[m := mutexes[m].(prio := priority)];
      }
      assert mutexes == old(mutexes)[m := mx.(waiters := InsertAt(mx.waiters, pos, t), prio := if priority < mx.prio then priority else mx.prio)];
    }

    /** `_thread_timeout`, and then the update of the mutex in the error path of `_rt_mutex_take`. */
    method LeaveList(u: Tid, m: Mid)
      requires u in threads && m in mutexes
      requires forall w :: w in Without(mutexes[m].waiters, u) ==> w in threads && w != u
      modifies this`threads, this`mutexes
      ensures St() == old(Dropped(St(), u, m))
    {
      var rest := Without(mutexes[m].waiters, u);
      mutexes := mutexes[m := mutexes[m].(waiters := rest)];
      threads := threads[u := threads[u].(suspended := false)];
      mutexes := mutexes[m := mutexes[m].(prio := if rest != [] then threads[rest[0]].cur else NO_WAITER)];
      threads := threads[u := threads[u].(pending := None)];
    }

    /**
     A waiter gives up: its timeout (or another error) takes it off the wait list, and it repairs
     the priorities on its way out of `_rt_mutex_take`. `rt_mutex_drop_thread` does the same to another thread.
     */
    method DropWaiter(u: Tid)
      requires Inv(St()) && u in threads && threads[u].pending.Some?
      modifies this
      ensures Inv(St())
      ensures var m := old(threads[u].pending.value);
        && old(m in mutexes && mutexes[m].owner.Some?)
        && Walked(old(Dropped(St(), u, m)), St(), old(Lower(mutexes[m].owner.value)), None)
        && HasLeft(old(St()), u, m, St())
      ensures WaitsFor(St()) == old(WaitsFor(St())) - {u}
      ensures old(Acyclic(WaitsFor(St()))) ==> Acyclic(WaitsFor(St()))
    {
      ghost var s := St();
      WaiterIsLinked(s, u);
      var m := threads[u].pending.value;
      DropStep(s, u, m);
      var o := mutexes[m].owner.value;
      var needUpdate := threads[o].cur == threads[u].cur;
      LeaveList(u, m);
      ghost var s' := St();
      NothingWalked(s', Lower(o));
      if needUpdate {
        var p := GetMutexPriority(o);
        if p != threads[o].cur {
          UpdatePriority(o, p);
          OnlyPrioritiesKeepsGraph(s', St());
        } else {
          OffByNothing(s', o, p);
        }
      }
      DroppedHasLeft(s, u, m, St());
    }

    /** `_check_and_update_prio`, after `m` has left the taken list of `t`. */
    method CheckAndUpdatePriority(t: Tid, m: Mid)
      requires t in threads && m in mutexes && forall n :: n in threads[t].taken ==> n in mutexes
      modifies this`threads
      ensures t in threads && threads == old(threads)[t := old(threads[t]).(cur := threads[t].cur)]
      ensures if old(threads[t].cur) == mutexes[m].prio
              then IsEffective(old(St()), t, threads[t].cur)
              else threads[t].cur == old(threads[t].cur)
    {
      if threads[t].cur == mutexes[m].prio {
        var p := GetMutexPriority(t);
        threads := threads[t := threads[t].(cur := p)];
      }
    }

    /** `rt_mutex_release`. */
    method Release(t: Tid, m: Mid) returns (ok: bool)
      requires Inv(St()) && CanCall(St(), t, m)
      modifies this
      ensures Inv(St())
      ensures ok <==> old(mutexes[m].owner == Some(t))
      ensures !ok ==> St() == old(St())
      ensures ok && old(mutexes[m].hold) > 1 ==>
                && St() == old(Rehold(St(), m, mutexes[m].hold - 1))
                && threads == old(threads) && mutexes == old(mutexes)[m := old(mutexes[m]).(hold := old(mutexes[m].hold) - 1)]
      ensures ok && old(mutexes[m].hold) == 1 ==>
                && HandedOn(old(St()), t, m, St())
                && t in threads
                && var p := threads[t].cur; old(CanRelease(St(), t, m, p)) && St() == old(Released(St(), t, m, p))
      ensures old(Acyclic(WaitsFor(St()))) ==> Acyclic(WaitsFor(St()))
    {
      if mutexes[m].owner != Some(t) {
        return false;
      }
      ok := true;
      assert MutexLinked(St(), m);
      if mutexes[m].hold > 1 {
        SetHold(m, mutexes[m].hold - 1);
      } else {
        GiveUp(t, m);
      }
    }

    /** `rt_mutex_release` when `hold` drops to 0. */
    method GiveUp(t: Tid, m: Mid)
      requires Inv(St()) && CanCall(St(), t, m) && mutexes[m].owner == Some(t) && mutexes[m].hold == 1
      modifies this
      ensures Inv(St())
      ensures HandedOn(old(St()), t, m, St())
      ensures t in threads
              && var p := threads[t].cur; old(CanRelease(St(), t, m, p)) && St() == old(Released(St(), t, m, p))
      ensures old(Acyclic(WaitsFor(St()))) ==> Acyclic(WaitsFor(St()))
    {
      ghost var s := St();
      OwnerFacts(s, t, m);
      DropOwnership(t, m);
      ghost var p := threads[t].cur;
      CanReleaseHolds(s, t, m, p);
      ReleaseStep(s, t, m, p);
      ReleasedIsHandedOn(s, t, m, p);
    }

    /** The updates of `rt_mutex_release` when `hold` drops to 0. */
    method DropOwnership(t: Tid, m: Mid)
      requires t in threads && m in mutexes && mutexes[m].hold == 1
      requires forall n :: n in Without(threads[t].taken, m) ==> n in mutexes
      requires forall w :: w in mutexes[m].waiters ==> w in threads && w != t
      modifies this`threads, this`mutexes
      ensures t in threads
      ensures var p := threads[t].cur; St() == old(Released(St(), t, m, p)) && old(IsDueOnRelease(St(), t, m, p))
    {
      ghost var s := St();
      Untake(t, m);
      ghost var p := threads[t].cur;
      PassOn(m);
      assert threads[t].cur == p;
    }

    /** `m` leaves the taken list of `t`, which may lose a priority with it. */
    method Untake(t: Tid, m: Mid)
      requires t in threads && m in mutexes && mutexes[m].hold == 1
      requires forall n :: n in Without(threads[t].taken, m) ==> n in mutexes
      modifies this`threads, this`mutexes
      ensures t in threads
      ensures var p := threads[t].cur; St() == old(Untaken(St(), t, m, p)) && old(IsDueOnRelease(St(), t, m, p))
    {
      mutexes := mutexes[m := mutexes[m].(hold := mutexes[m].hold - 1)];
      threads := threads[t := threads[t].(taken := Without(threads[t].taken, m))];
      CheckAndUpdatePriority(t, m);
    }

    /** The second half of `rt_mutex_release`: the head waiter, if any, becomes the owner. */
    method PassOn(m: Mid)
      requires m in mutexes && forall w :: w in mutexes[m].waiters ==> w in threads
      modifies this`threads, this`mutexes
      ensures St() == old(PassedOn(St(), m))
    {
      if mutexes[m].waiters != [] {
        var next := mutexes[m].waiters[0];
        var rest := mutexes[m].waiters[1..];
        threads := threads[next := threads[next].(suspended := false, pending := None, taken := [m] + threads[next].taken)];
        mutexes := mutexes[m := Mutex(Some(next), 1, if rest != [] then threads[rest[0]].cur else NO_WAITER, rest)];
      } else {
        mutexes := mutexes[m := mutexes[m].(owner := None, prio := NO_WAITER)];
      }
    }
  }
}
