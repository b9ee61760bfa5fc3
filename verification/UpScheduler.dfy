/**
 The single-core scheduler of `src/scheduler_up.c` and `src/scheduler_comm.c`.
 */
module UpScheduler {
  import opened Wrappers
  import opened Sequences
  import opened ReadyTable
  import opened Placement

  /** What the scheduler decides on, without its bitmap. */
  datatype State = State(lists: seq<seq<Tid>>, threads: Threads, current: Option<Tid>, lockNest: nat)

  ghost predicate ThreadOk(levels: nat, threads: Threads, current: Option<Tid>, x: Tid) {
    && x in threads && MasksOk(levels, threads[x]) && threads[x].home == 0
    && (threads[x].stat == Running ==> current == Some(x))
    && (current == Some(x) ==> threads[x].stat != Ready && threads[x].stat != Init)
  }

  ghost predicate ThreadsOk(levels: nat, threads: Threads, current: Option<Tid>) {
    && (current.Some? ==> current.value in threads)
    && forall x {:trigger ThreadOk(levels, threads, current, x)} :: x in threads ==> ThreadOk(levels, threads, current, x)
  }

  ghost predicate Placed(t: Table, threads: Threads, current: Option<Tid>) {
    QueueOk(t, threads, 0) && ThreadsOk(|t.lists|, threads, current)
  }

  /** Does the running thread keep the processor? `h` is the most urgent ready priority. */
  predicate Keeps(th: Thread, h: nat) {
    th.stat == Running && (th.prio < h || (th.prio == h && !th.yielding))
  }

  function Entered(lists: seq<seq<Tid>>, p: nat, x: Tid, atEnd: bool): seq<seq<Tid>> {
    if p < |lists| then lists[p := if atEnd then lists[p] + [x] else [x] + lists[p]] else lists
  }

  function Departed(lists: seq<seq<Tid>>, p: nat, x: Tid): seq<seq<Tid>> {
    if p < |lists| then lists[p := Without(lists[p], x)] else lists
  }

  /** What `rt_schedule` decides, by looking at every list. */
  function Scheduled(s: State): State {
    if s.lockNest != 0 || s.current.None? || s.current.value !in s.threads then s
    else
      var c := s.current.value;
      var cur := s.threads[c];
      match FirstReady(s.lists)
      case None => s
      case Some(h) =>
        if Keeps(cur, h) then s
        else
          var to := s.lists[h][0];
          var lists := if cur.stat == Running then Entered(s.lists, cur.prio, c, cur.yielding) else s.lists;
          var left := s.threads[c := cur.(stat := if cur.stat == Running then Ready else cur.stat, yielding := false)];
          State(lists[h := Without(lists[h], to)], if to in left then left[to := left[to].(stat := Running)] else left, Some(to), 0)
  }

  /**
   After every scheduling that is not locked, no ready thread is strictly more urgent than the running one,
   provided anybody can run: the idle thread always can.
   */
  lemma NoInversion(t: Table, s: State, x: Tid)
    requires Placed(t, s.threads, s.current) && t.lists == s.lists && s.lockNest == 0 && s.current.Some?
    requires s.threads[s.current.value].stat == Running || FirstReady(s.lists).Some?
    ensures var s' := Scheduled(s);
      && s'.current.Some? && s'.current.value in s'.threads && s'.threads[s'.current.value].stat == Running
      && (x in s'.threads && s'.threads[x].stat == Ready ==> s'.threads[s'.current.value].prio <= s'.threads[x].prio)
  {
    var c := s.current.value;
    assert ThreadOk(|t.lists|, s.threads, s.current, c);
    if x in s.threads {
      assert ThreadOk(|t.lists|, s.threads, s.current, x);
      if s.threads[x].stat == Ready { ReadyIsQueued(t, s.threads, 0, x); }
    }
    match FirstReady(s.lists)
    case None =>
    case Some(h) =>
      Queued(t, s.threads, 0, h, s.lists[h][0]);
      hide QueueOk;
  }

  /** A thread that yields among equals lets all of them run first: the list goes round. */
  lemma RoundRobin(t: Table, s: State, p: nat)
    requires Placed(t, s.threads, s.current) && t.lists == s.lists && s.lockNest == 0 && s.current.Some?
    requires FirstReady(s.lists) == Some(p)
    requires var cur := s.threads[s.current.value]; cur.stat == Running && cur.prio == p && cur.yielding
    ensures var s' := Scheduled(s);
      s'.current == Some(s.lists[p][0]) && s'.lists == s.lists[p := s.lists[p][1..] + [s.current.value]]
  {
    var xs, c := s.lists[p], s.current.value;
    var ys := xs + [c];
    assert ys[0] == xs[0];
    assert ys[1..] == xs[1..] + [c];
  }

  // ----- placement over the steps

  lemma ThreadsChange(levels: nat, threads: Threads, current: Option<Tid>, x: Tid, th: Thread)
    requires ThreadsOk(levels, threads, current) && MasksOk(levels, th) && th.home == 0
    requires th.stat == Running ==> current == Some(x)
    requires current == Some(x) ==> th.stat != Ready && th.stat != Init
    ensures ThreadsOk(levels, threads[x := th], current)
  {
    var threads' := threads[x := th];
    forall y | y in threads'
      ensures ThreadOk(levels, threads', current, y)
    {
      assert y in threads ==> ThreadOk(levels, threads, current, y);
    }
  }

  /** The switch of `rt_schedule` from `c` to the first of the most urgent ready threads. */
  lemma SwitchPlaced(t: Table, threads: Threads, c: Tid, h: nat, s: Table, left: Threads)
    requires Placed(t, threads, Some(c)) && FirstReady(t.lists) == Some(h)
    requires var cur := threads[c];
      && cur.prio < |t.lists|
      && left == threads[c := cur.(stat := if cur.stat == Running then Ready else cur.stat, yielding := false)]
      && s == if cur.stat == Running then Insert(t, cur.prio, cur.masks, c, cur.yielding) else t
    ensures var to := t.lists[h][0];
      && to in left && to != c && left[to].prio == h && left[to].masks == MasksFor(|t.lists|, h)
      && Placed(Remove(s, h, left[to].masks, to), left[to := left[to].(stat := Running)], Some(to))
  {
    var cur, to := threads[c], t.lists[h][0];
    var gone := cur.(stat := if cur.stat == Running then Ready else cur.stat, yielding := false);
    assert ThreadOk(|t.lists|, threads, Some(c), c);
    Queued(t, threads, 0, h, to);
    assert ThreadOk(|t.lists|, threads, Some(c), to);
    if cur.stat == Running {
      QueueInsert(t, threads, 0, c, gone, cur.yielding);
    } else {
      QueueIdle(t, threads, 0, c, gone);
    }
    var th := left[to].(stat := Running);
    SameLevels(t, cur.prio, cur.masks, c, cur.yielding);
    QueueRemove(s, left, 0, to, th);
    hide QueueOk, Agrees;
    var threads' := left[to := th];
    forall y | y in threads'
      ensures ThreadOk(|t.lists|, threads', Some(to), y)
    {
      assert ThreadOk(|t.lists|, threads, Some(c), y);
    }
  }

  lemma SameLevels(t: Table, p: nat, m: Masks, x: Tid, atEnd: bool)
    requires p < |t.lists|
    ensures |Insert(t, p, m, x, atEnd).lists| == |Remove(t, p, m, x).lists| == |t.lists|
    ensures Insert(t, p, m, x, atEnd).lists == Entered(t.lists, p, x, atEnd)
    ensures Remove(t, p, m, x).lists == t.lists[p := Without(t.lists[p], x)]
  {
  }

  /** What `rt_schedule` works with: the ready lists before the switch, and the threads once `c` runs no more. */
  lemma Decision(tiny: bool, t: Table, threads: Threads, c: Tid) returns (s: Table, left: Threads)
    requires Placed(t, threads, Some(c)) && FirstReady(t.lists).Some?
    ensures var h := FirstReady(t.lists).value;
      && Highest(tiny, t) == h && h < |t.lists| && t.lists[h] != []
      && c in threads && var cur, to := threads[c], t.lists[h][0];
      && cur.prio < |t.lists| && to in threads && to != c && threads[to].prio == h
      && (cur.stat == Running ==> Placed(Remove(t, cur.prio, cur.masks, c), threads, Some(c))
                                  && Remove(t, cur.prio, cur.masks, c).lists == t.lists)
      && left == threads[c := cur.(stat := if cur.stat == Running then Ready else cur.stat, yielding := false)]
      && s == (if cur.stat == Running then Insert(t, cur.prio, cur.masks, c, cur.yielding) else t)
      && s.lists == (if cur.stat == Running then Entered(t.lists, cur.prio, c, cur.yielding) else t.lists)
      && |s.lists| == |t.lists|
      && Remove(s, h, left[to].masks, to).lists == s.lists[h := Without(s.lists[h], to)]
      && Placed(Remove(s, h, left[to].masks, to), left[to := left[to].(stat := Running)], Some(to))
  {
    HighestIsFirst(tiny, t);
    var h, cur := FirstReady(t.lists).value, threads[c];
    var to := t.lists[h][0];
    assert ThreadOk(|t.lists|, threads, Some(c), c);
    Queued(t, threads, 0, h, to);
    left := threads[c := cur.(stat := if cur.stat == Running then Ready else cur.stat, yielding := false)];
    s := if cur.stat == Running then Insert(t, cur.prio, cur.masks, c, cur.yielding) else t;
    SwitchPlaced(t, threads, c, h, s, left);
    SameLevels(t, cur.prio, cur.masks, c, cur.yielding);
    SameLevels(s, h, left[to].masks, to, false);
    if cur.stat == Running {
      QueueRemoveNothing(t, threads, 0, c, cur.prio);
    }
    hide QueueOk, ThreadsOk, Insert, Remove;
  }

  lemma InsertPlaced(t: Table, threads: Threads, current: Option<Tid>, x: Tid)
    requires Placed(t, threads, current) && x in threads && threads[x].stat == Suspended
    ensures var th := threads[x].(stat := if current == Some(x) then Running else Ready);
      && th.prio < |t.lists|
      && Placed(if current == Some(x) then t else Insert(t, th.prio, th.masks, x, th.yielding), threads[x := th], current)
  {
    var th := threads[x].(stat := if current == Some(x) then Running else Ready);
    assert ThreadOk(|t.lists|, threads, current, x);
    ThreadsChange(|t.lists|, threads, current, x, th);
    if current == Some(x) {
      QueueIdle(t, threads, 0, x, th);
    } else {
      QueueInsert(t, threads, 0, x, th, th.yielding);
      SameLevels(t, th.prio, th.masks, x, th.yielding);
    }
    hide QueueOk, ThreadsOk;
  }

  lemma StartPlaced(t: Table, threads: Threads, to: Tid)
    requires Placed(t, threads, None) && to in threads && threads[to].stat == Ready
    ensures threads[to].prio < |t.lists|
    ensures Placed(Remove(t, threads[to].prio, threads[to].masks, to), threads[to := threads[to].(stat := Running, yielding := false)], Some(to))
  {
    assert ThreadOk(|t.lists|, threads, None, to);
    var th := threads[to].(stat := Running, yielding := false);
    QueueRemove(t, threads, 0, to, th);
    SameLevels(t, th.prio, th.masks, to, false);
    hide QueueOk;
    forall y | y in threads
      ensures ThreadOk(|t.lists|, threads[to := th], Some(to), y)
    {
      assert ThreadOk(|t.lists|, threads, None, y);
    }
  }

  lemma ClosePlaced(t: Table, threads: Threads, current: Option<Tid>, x: Tid)
    requires Placed(t, threads, current) && x in threads && threads[x].stat != Init && threads[x].stat != Closed && threads[x].prio < |t.lists|
    ensures var t' := Remove(t, threads[x].prio, threads[x].masks, x);
      && Placed(t', threads[x := threads[x].(stat := Closed, yielding := false)], current)
      && (threads[x].stat != Ready ==> t'.lists == t.lists)
  {
    var th := threads[x].(stat := Closed, yielding := false);
    assert ThreadOk(|t.lists|, threads, current, x);
    SameLevels(t, th.prio, th.masks, x, false);
    if threads[x].stat == Ready {
      QueueRemove(t, threads, 0, x, th);
    } else {
      QueueRemoveNothing(t, threads, 0, x, th.prio);
      QueueIdle(Remove(t, th.prio, th.masks, x), threads, 0, x, th);
    }
    ThreadsChange(|t.lists|, threads, current, x, th);
  }

  class Scheduler {
    const tiny: bool
    var table: Table
    var threads: Threads
    var current: Option<Tid>
    var lockNest: nat

    ghost predicate Valid()
      reads this
    {
      Placed(table, threads, current)
    }

    function St(): State
      reads this
    {
      State(table.lists, threads, current, lockNest)
    }

    /** `rt_system_scheduler_init`. */
    constructor (levels: nat, tiny: bool)
      requires 0 < levels <= 256
      ensures Valid() && St() == State(seq(levels, i => []), map[], None, 0)
    {
      this.tiny := tiny;
      table := Empty(levels);
      threads := map[];
      current := None;
      lockNest := 0;
      new;
      EmptyAgrees(levels);
    }

    /** `rt_sched_insert_thread`. */
    method InsertThread(x: Tid)
      requires x in threads && threads[x].prio < |table.lists|
      modifies this`table, this`threads
      ensures threads == old(threads)[x := old(threads)[x].(stat := if current == Some(x) then Running else Ready)]
      ensures table == if current == Some(x) then old(table)
                       else Insert(old(table), threads[x].prio, threads[x].masks, x, threads[x].yielding)
      ensures current != Some(x) ==>
        var p, xs := threads[x].prio, old(table).lists[threads[x].prio];
        table.lists == old(table).lists[p := if threads[x].yielding then xs + [x] else [x] + xs]
    {
      if current == Some(x) {
        threads := threads[x := threads[x].(stat := Running)];
        return;
      }
      threads := threads[x := threads[x].(stat := Ready)];
      table := Insert(table, threads[x].prio, threads[x].masks, x, threads[x].yielding);
    }

    /** `rt_sched_remove_thread`. */
    method RemoveThread(x: Tid)
      requires x in threads && threads[x].prio < |table.lists|
      modifies this`table
      ensures table == Remove(old(table), threads[x].prio, threads[x].masks, x)
      ensures TakenOut(old(table), table, threads[x].prio, threads[x].masks, x)
    {
      RemoveTakesOut(table, threads[x].prio, threads[x].masks, x);
      table := Remove(table, threads[x].prio, threads[x].masks, x);
    }

    /** `rt_schedule`. */
    method Schedule()
      requires Valid() && current.Some?
      modifies this`table, this`threads, this`current
      ensures Valid() && St() == Scheduled(old(St()))
    {
      if lockNest == 0 {
        GroupIsZeroIff(table);
        if table.group != 0 {
          HighestIsFirst(tiny, table);
          hide QueueOk, Agrees, ThreadOk;
          Decide();
        }
      }
    }

    method Decide()
      requires Valid() && current.Some? && lockNest == 0 && FirstReady(table.lists).Some?
      modifies this`table, this`threads, this`current
      ensures Valid() && St() == Scheduled(old(St()))
    {
      ghost var ths := threads;
      var c := current.value;
      ghost var s, left := Decision(tiny, table, threads, c);
      hide QueueOk, Agrees, ThreadsOk, FirstReady, Insert, Remove, Highest;
      var h: nat := Highest(tiny, table);
      var to, needInsert := table.lists[h][0], false;
      if threads[c].stat == Running {
        if threads[c].prio < h {
          to := c;
        } else if threads[c].prio == h && !threads[c].yielding {
          to := c;
        } else {
          needInsert := true;
        }
      }
      if to != c {
        current := Some(to);
        if needInsert {
          InsertThread(c);
        }
        if threads[c].yielding {
          threads := threads[c := threads[c].(yielding := false)];
        }
        assert threads == left;
        RemoveThread(to);
        threads := threads[to := threads[to].(stat := Running)];
      } else {
        RemoveThread(c);
        threads := threads[c := threads[c].(stat := Running)];
        assert threads == ths;
      }
    }

    /** `rt_sched_thread_init_ctx`: a new thread, in no queue. */
    method Create(x: Tid, prio: nat, tick: nat)
      requires Valid() && x !in threads && prio < |table.lists|
      modifies this`threads
      ensures Valid() && threads == old(threads)[x := Thread(prio, Masks(0, 0, 0), Init, false, tick, tick, 0, None)]
    {
      var th := Thread(prio, Masks(0, 0, 0), Init, false, tick, tick, 0, None);
      QueueIdle(table, threads, 0, x, th);
      ThreadsChange(|table.lists|, threads, current, x, th);
      hide QueueOk, ThreadsOk;
      threads := threads[x := th];
    }

    /** `rt_sched_thread_startup`: the bits of the thread's priority, and ready to be resumed. */
    method Startup(x: Tid)
      requires Valid() && x in threads && threads[x].stat == Init
      modifies this`threads
      ensures Valid() && threads == old(threads)[x := old(threads)[x].(masks := MasksFor(|table.lists|, old(threads)[x].prio), stat := Suspended, yielding := false)]
    {
      assert ThreadOk(|table.lists|, threads, current, x);
      var th := threads[x].(masks := MasksFor(|table.lists|, threads[x].prio), stat := Suspended, yielding := false);
      QueueIdle(table, threads, 0, x, th);
      ThreadsChange(|table.lists|, threads, current, x, th);
      hide QueueOk, ThreadsOk;
      threads := threads[x := th];
    }

    /** `rt_sched_thread_ready`, but for the thread's timer. */
    method MakeReady(x: Tid) returns (ok: bool)
      requires Valid() && x in threads
      modifies this`table, this`threads
      ensures Valid() && ok == (old(threads)[x].stat == Suspended)
      ensures !ok ==> table == old(table) && threads == old(threads)
      ensures ok ==> threads == old(threads)[x := old(threads)[x].(stat := if current == Some(x) then Running else Ready)]
      ensures ok ==> table.lists == if current == Some(x) then old(table).lists
                                    else Entered(old(table).lists, threads[x].prio, x, threads[x].yielding)
    {
      ok := threads[x].stat == Suspended;
      if ok {
        assert ThreadOk(|table.lists|, threads, current, x);
        InsertPlaced(table, threads, current, x);
        SameLevels(table, threads[x].prio, threads[x].masks, x, threads[x].yielding);
        hide QueueOk, ThreadsOk, Insert;
        InsertThread(x);
      }
    }

    /** `rt_thread_suspend_to_list`, of the running thread. */
    method Suspend(x: Tid) returns (ok: bool)
      requires Valid() && current == Some(x)
      modifies this`table, this`threads
      ensures Valid() && ok == (old(threads)[x].stat == Running) && table.lists == old(table).lists
      ensures threads == if ok then old(threads)[x := old(threads)[x].(stat := Suspended)] else old(threads)
    {
      assert ThreadOk(|table.lists|, threads, current, x);
      ok := threads[x].stat == Ready || threads[x].stat == Running;
      if ok {
        QueueRemoveNothing(table, threads, 0, x, threads[x].prio);
        var th := threads[x].(stat := Suspended);
        QueueIdle(Remove(table, threads[x].prio, threads[x].masks, x), threads, 0, x, th);
        ThreadsChange(|table.lists|, threads, current, x, th);
        SameLevels(table, threads[x].prio, threads[x].masks, x, false);
        hide QueueOk, ThreadsOk, Remove;
        RemoveThread(x);
        threads := threads[x := th];
      }
    }

    /** `rt_sched_thread_yield`. */
    method Yield(x: Tid)
      requires Valid() && x in threads
      modifies this`threads
      ensures Valid() && threads == old(threads)[x := old(threads)[x].(remaining := old(threads)[x].init, yielding := true)]
    {
      assert ThreadOk(|table.lists|, threads, current, x);
      var th := threads[x].(remaining := threads[x].init, yielding := true);
      QueueSameThread(table, threads, 0, x, th);
      ThreadsChange(|table.lists|, threads, current, x, th);
      hide QueueOk, ThreadsOk;
      threads := threads[x := th];
    }

    /** `rt_sched_tick_increase`: at the end of its time slice the running thread yields. */
    method TickIncrease()
      requires Valid() && current.Some? && threads[current.value].remaining > 0
      modifies this
      ensures Valid()
      ensures var x := old(current).value; var was := old(threads)[x];
        if was.remaining > 1 then
          St() == old(St()).(threads := old(threads)[x := was.(remaining := was.remaining - 1)])
        else
          St() == Scheduled(old(St()).(threads := old(threads)[x := was.(remaining := was.init, yielding := true)]))
    {
      var x := current.value;
      ghost var was := threads[x];
      assert ThreadOk(|table.lists|, threads, current, x);
      var th := threads[x].(remaining := threads[x].remaining - 1);
      QueueSameThread(table, threads, 0, x, th);
      ThreadsChange(|table.lists|, threads, current, x, th);
      hide QueueOk, ThreadsOk, Scheduled;
      threads := threads[x := th];
      if threads[x].remaining == 0 {
        Yield(x);
        assert threads == old(threads)[x := was.(remaining := was.init, yielding := true)];
        Schedule();
      }
    }

    /** `rt_sched_thread_change_priority`: a ready thread enters its new list at the front, and its yield flag is cleared. */
    method ChangePriority(x: Tid, prio: nat)
      requires Valid() && x in threads && prio < |table.lists|
      modifies this`table, this`threads
      ensures Valid()
      ensures var was := old(threads)[x];
        threads == old(threads)[x := was.(prio := prio, masks := MasksFor(|table.lists|, prio),
                                          yielding := was.yielding && was.stat != Ready)]
      ensures old(threads)[x].stat != Ready ==> table == old(table)
      ensures old(threads)[x].stat == Ready ==>
        table.lists == Entered(Departed(old(table).lists, old(threads)[x].prio, x), prio, x, false)
    {
      ghost var was := threads[x];
      assert ThreadOk(|table.lists|, threads, current, x);
      var th := threads[x].(prio := prio, masks := MasksFor(|table.lists|, prio), yielding := threads[x].yielding && threads[x].stat != Ready);
      ThreadsChange(|table.lists|, threads, current, x, th);
      if threads[x].stat == Ready {
        var moving := th.(stat := Init);
        QueueRemove(table, threads, 0, x, moving);
        SameLevels(table, was.prio, was.masks, x, false);
        var t := Remove(table, was.prio, was.masks, x);
        QueueInsert(t, threads[x := moving], 0, x, th, false);
        SameLevels(t, prio, th.masks, x, false);
        assert threads[x := moving][x := th] == threads[x := th];
        hide QueueOk, ThreadsOk, Insert, Remove;
        RemoveThread(x);
        threads := threads[x := moving];
        InsertThread(x);
        assert threads == old(threads)[x := th];
      } else {
        QueueIdle(table, threads, 0, x, th);
        hide QueueOk, ThreadsOk;
        threads := threads[x := th];
      }
    }

    /** `rt_enter_critical`. */
    method EnterCritical() returns (level: nat)
      requires Valid()
      modifies this`lockNest
      ensures Valid() && level == lockNest == old(lockNest) + 1
    {
      lockNest := lockNest + 1;
      level := lockNest;
    }

    /** `rt_exit_critical`: the last exit makes up for the switches put off. */
    method ExitCritical()
      requires Valid()
      modifies this
      ensures Valid()
      ensures var once := old(St()).(lockNest := if old(lockNest) > 0 then old(lockNest) - 1 else 0);
        St() == if old(lockNest) <= 1 && old(current).Some? then Scheduled(once) else once
    {
      if lockNest <= 1 {
        lockNest := 0;
        if current.Some? {
          Schedule();
        }
      } else {
        lockNest := lockNest - 1;
      }
    }

    /** `rt_system_scheduler_start`. */
    method Start()
      requires Valid() && current.None? && FirstReady(table.lists).Some?
      modifies this`table, this`threads, this`current
      ensures Valid() && current.Some?
      ensures var h := FirstReady(old(table).lists).value;
        && current == Some(old(table).lists[h][0]) && table.lists == Departed(old(table).lists, h, current.value)
        && current.value in old(threads) && threads == old(threads)[current.value := old(threads)[current.value].(stat := Running, yielding := false)]
    {
      HighestIsFirst(tiny, table);
      var h: nat := Highest(tiny, table);
      var to := table.lists[h][0];
      Queued(table, threads, 0, h, to);
      assert ThreadOk(|table.lists|, threads, current, to);
      StartPlaced(table, threads, to);
      SameLevels(table, h, threads[to].masks, to, false);
      hide QueueOk, ThreadsOk, Remove;
      current := Some(to);
      RemoveThread(to);
      threads := threads[to := threads[to].(stat := Running, yielding := false)];
    }

    /** The scheduler's part of a thread's exit or deletion; a closed thread stays closed. */
    method Close(x: Tid)
      requires Valid() && x in threads && (current == Some(x) ==> threads[x].stat != Init)
      modifies this`table, this`threads
      ensures Valid() && threads == old(threads)[x := old(threads)[x].(stat := Closed, yielding := false)]
      ensures table.lists == if old(threads)[x].stat == Ready then Departed(old(table).lists, old(threads)[x].prio, x) else old(table).lists
    {
      assert ThreadOk(|table.lists|, threads, current, x);
      ghost var was := threads;
      if threads[x].stat != Closed && threads[x].stat != Init {
        SameLevels(table, threads[x].prio, threads[x].masks, x, false);
        ClosePlaced(table, threads, current, x);
        hide QueueOk, ThreadsOk, Remove;
        RemoveThread(x);
        threads := threads[x := threads[x].(stat := Closed, yielding := false)];
      } else {
        var th := threads[x].(stat := Closed, yielding := false);
        QueueIdle(table, threads, 0, x, th);
        ThreadsChange(|table.lists|, threads, current, x, th);
        hide QueueOk, ThreadsOk;
        threads := threads[x := th];
      }
    }
  }
}
