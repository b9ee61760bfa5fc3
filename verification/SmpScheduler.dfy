/**
 The multi-core scheduler of `src/scheduler_mp.c`: one ready queue for all cores and one for each core.
 Every step runs under the scheduler's lock. A context switch and the update of the core's current thread
 after it are one step.
 */
module SmpScheduler {
  import opened Wrappers
  import opened Sequences
  import opened ReadyTable
  import opened Placement

  /** The queues of the cores, by their numbers, and behind them the one for threads of no core (`RT_CPUS_NR`). */
  type Queues = seq<Table>

  ghost predicate ThreadOk(levels: nat, n: nat, threads: Threads, current: seq<Option<Tid>>, x: Tid) {
    && x in threads && MasksOk(levels, threads[x]) && threads[x].home <= n
    && (threads[x].stat == Running ==> threads[x].oncpu.Some?)
    && (threads[x].stat == Ready || threads[x].stat == Init ==> threads[x].oncpu.None?)
    && (threads[x].oncpu.Some? ==> threads[x].oncpu.value < |current| && current[threads[x].oncpu.value] == Some(x))
  }

  ghost predicate CoreOk(threads: Threads, current: seq<Option<Tid>>, c: nat) {
    c < |current| && current[c].Some? ==> current[c].value in threads && threads[current[c].value].oncpu == Some(c)
  }

  ghost predicate QueueAt(levels: nat, queues: Queues, threads: Threads, h: nat) {
    h < |queues| ==> |queues[h].lists| == levels && QueueOk(queues[h], threads, h)
  }

  ghost predicate ThreadsOk(levels: nat, n: nat, threads: Threads, current: seq<Option<Tid>>) {
    && (forall x {:trigger ThreadOk(levels, n, threads, current, x)} :: x in threads ==> ThreadOk(levels, n, threads, current, x))
    && (forall c: nat {:trigger CoreOk(threads, current, c)} :: CoreOk(threads, current, c))
  }

  ghost predicate QueuesOk(levels: nat, queues: Queues, threads: Threads) {
    forall h: nat {:trigger QueueAt(levels, queues, threads, h)} :: QueueAt(levels, queues, threads, h)
  }

  /**
   Each ready thread is in exactly one list, that of its home and priority; no thread on a core is in any;
   all bitmaps agree with the lists.
   */
  ghost predicate Placed(levels: nat, queues: Queues, threads: Threads, current: seq<Option<Tid>>) {
    && 0 < levels <= 256 && |queues| == |current| + 1
    && QueuesOk(levels, queues, threads)
    && ThreadsOk(levels, |current|, threads, current)
  }

  /** A thread that core `c` may run. */
  predicate Eligible(n: nat, c: nat, th: Thread) {
    th.home == n || th.home == c
  }

  /** The home and priority of the most urgent thread for a core, of equals the core's own. */
  function Best(global: Option<nat>, local: Option<nat>, n: nat, c: nat): Option<(nat, nat)> {
    if global.Some? && (local.None? || global.value < local.value) then Some((n, global.value))
    else if local.Some? then Some((c, local.value))
    else None
  }

  predicate Keeps(th: Thread, n: nat, c: nat, h: nat) {
    th.stat == Running && Eligible(n, c, th) && (th.prio < h || (th.prio == h && !th.yielding))
  }

  // ----- changes of one thread

  lemma ThreadsChange(levels: nat, n: nat, threads: Threads, current: seq<Option<Tid>>, x: Tid, th: Thread)
    requires ThreadsOk(levels, n, threads, current) && MasksOk(levels, th) && th.home <= n
    requires x in threads && th.oncpu == threads[x].oncpu
    requires th.stat == Running ==> th.oncpu.Some?
    requires th.stat == Ready || th.stat == Init ==> th.oncpu.None?
    ensures ThreadsOk(levels, n, threads[x := th], current)
  {
    var threads' := threads[x := th];
    assert ThreadOk(levels, n, threads, current, x);
    forall y | y in threads'
      ensures ThreadOk(levels, n, threads', current, y)
    {
      assert ThreadOk(levels, n, threads, current, y);
    }
    forall c: nat
      ensures CoreOk(threads', current, c)
    {
      assert CoreOk(threads, current, c);
    }
  }

  /** A thread enters the queue of its home. */
  lemma QueuesInsert(levels: nat, queues: Queues, threads: Threads, x: Tid, th: Thread, atEnd: bool)
    requires QueuesOk(levels, queues, threads) && th.stat == Ready && th.home < |queues| && MasksOk(levels, th)
    requires x in threads ==> threads[x].stat != Ready
    ensures |queues[th.home].lists| == levels
    ensures QueuesOk(levels, queues[th.home := Insert(queues[th.home], th.prio, th.masks, x, atEnd)], threads[x := th])
  {
    assert QueueAt(levels, queues, threads, th.home);
    var queues', threads' := queues[th.home := Insert(queues[th.home], th.prio, th.masks, x, atEnd)], threads[x := th];
    forall h: nat
      ensures QueueAt(levels, queues', threads', h)
    {
      assert QueueAt(levels, queues, threads, h);
      if h < |queues| {
        if h == th.home {
          QueueInsert(queues[h], threads, h, x, th, atEnd);
        } else {
          QueueElsewhere(queues[h], threads, h, x, th);
        }
      }
    }
  }

  /** A ready thread leaves the queue of its home. */
  lemma QueuesRemove(levels: nat, queues: Queues, threads: Threads, x: Tid, th: Thread)
    requires QueuesOk(levels, queues, threads) && x in threads && threads[x].stat == Ready && threads[x].home < |queues|
    requires MasksOk(levels, threads[x]) && th.stat != Ready
    ensures |queues[threads[x].home].lists| == levels
    ensures QueuesOk(levels, queues[threads[x].home := Remove(queues[threads[x].home], threads[x].prio, threads[x].masks, x)], threads[x := th])
  {
    var was := threads[x];
    assert QueueAt(levels, queues, threads, was.home);
    var queues', threads' := queues[was.home := Remove(queues[was.home], was.prio, was.masks, x)], threads[x := th];
    forall h: nat
      ensures QueueAt(levels, queues', threads', h)
    {
      assert QueueAt(levels, queues, threads, h);
      if h < |queues| {
        if h == was.home {
          QueueRemove(queues[h], threads, h, x, th);
        } else {
          QueueElsewhere(queues[h], threads, h, x, th);
        }
      }
    }
  }

  /** A change of a thread that is not ready and does not become ready. */
  lemma QueuesIdle(levels: nat, queues: Queues, threads: Threads, x: Tid, th: Thread)
    requires QueuesOk(levels, queues, threads) && th.stat != Ready && (x in threads ==> threads[x].stat != Ready)
    ensures QueuesOk(levels, queues, threads[x := th])
  {
    var threads' := threads[x := th];
    forall h: nat
      ensures QueueAt(levels, queues, threads', h)
    {
      assert QueueAt(levels, queues, threads, h);
      if h < |queues| {
        QueueIdle(queues[h], threads, h, x, th);
      }
    }
  }

  lemma QueuesSameThread(levels: nat, queues: Queues, threads: Threads, x: Tid, th: Thread)
    requires QueuesOk(levels, queues, threads) && x in threads
    requires th.stat == threads[x].stat && th.prio == threads[x].prio && th.home == threads[x].home
    ensures QueuesOk(levels, queues, threads[x := th])
  {
    var threads' := threads[x := th];
    forall h: nat
      ensures QueueAt(levels, queues, threads', h)
    {
      assert QueueAt(levels, queues, threads, h);
      if h < |queues| {
        QueueSameThread(queues[h], threads, h, x, th);
      }
    }
  }

  lemma QueuesRemoveNothing(levels: nat, queues: Queues, threads: Threads, x: Tid)
    requires QueuesOk(levels, queues, threads) && x in threads && threads[x].stat != Ready && threads[x].home < |queues|
    requires threads[x].prio < levels && threads[x].masks == MasksFor(levels, threads[x].prio)
    ensures |queues[threads[x].home].lists| == levels
    ensures var q := queues[threads[x].home]; var q' := Remove(q, threads[x].prio, threads[x].masks, x);
      q'.lists == q.lists && QueuesOk(levels, queues[threads[x].home := q'], threads)
  {
    var was := threads[x];
    assert QueueAt(levels, queues, threads, was.home);
    QueueRemoveNothing(queues[was.home], threads, was.home, x, was.prio);
    var queues' := queues[was.home := Remove(queues[was.home], was.prio, was.masks, x)];
    forall h: nat
      ensures QueueAt(levels, queues', threads, h)
    {
      assert QueueAt(levels, queues, threads, h);
    }
  }

  // ----- the switch

  datatype State = State(lists: seq<seq<seq<Tid>>>, threads: Threads, current: seq<Option<Tid>>)

  function Entered(lists: seq<seq<seq<Tid>>>, home: nat, p: nat, x: Tid, atEnd: bool): seq<seq<seq<Tid>>> {
    if home < |lists| && p < |lists[home]|
    then lists[home := lists[home][p := if atEnd then lists[home][p] + [x] else [x] + lists[home][p]]]
    else lists
  }

  function Departed(lists: seq<seq<seq<Tid>>>, home: nat, p: nat, x: Tid): seq<seq<seq<Tid>>> {
    if home < |lists| && p < |lists[home]| then lists[home := lists[home][p := Without(lists[home][p], x)]] else lists
  }

  /** The decision of `_prepare_context_switch_locked` on core `c`, by looking at every list it may take from. */
  function Switched(s: State, c: nat): State
    requires c < |s.current| && |s.lists| == |s.current| + 1 && s.current[c].Some?
  {
    var n, x := |s.current|, s.current[c].value;
    match Best(FirstReady(s.lists[n]), FirstReady(s.lists[c]), n, c)
    case None => s
    case Some((home, h)) =>
      if x !in s.threads || home >= |s.lists| || h >= |s.lists[home]| || s.lists[home][h] == [] then s
      else
        var cur := s.threads[x];
        if Keeps(cur, n, c, h) then s.(threads := s.threads[x := cur.(yielding := false)])
        else
          var to := s.lists[home][h][0];
          var runs := cur.stat == Running;
          var lists := if runs then Entered(s.lists, cur.home, cur.prio, x, cur.yielding) else s.lists;
          var left := s.threads[x := cur.(stat := if runs then Ready else cur.stat, oncpu := None, yielding := !runs && cur.yielding)];
          State(Departed(lists, home, h, to),
                if to in left then left[to := left[to].(stat := Running, oncpu := Some(c))] else left,
                s.current[c := Some(to)])
  }

  // ----- what the switch keeps

  function Lists(queues: Queues): (r: seq<seq<seq<Tid>>>)
    ensures |r| == |queues| && forall i :: 0 <= i < |r| ==> r[i] == queues[i].lists
  {
    seq(|queues|, i requires 0 <= i < |queues| => queues[i].lists)
  }

  function InsertInto(queues: Queues, x: Tid, th: Thread): Queues {
    if th.home < |queues| && th.prio < |queues[th.home].lists|
    then queues[th.home := Insert(queues[th.home], th.prio, th.masks, x, th.yielding)] else queues
  }

  function RemoveFrom(queues: Queues, x: Tid, th: Thread): Queues {
    if th.home < |queues| && th.prio < |queues[th.home].lists|
    then queues[th.home := Remove(queues[th.home], th.prio, th.masks, x)] else queues
  }

  lemma ListsAfter(queues: Queues, x: Tid, th: Thread)
    ensures Lists(InsertInto(queues, x, th)) == Entered(Lists(queues), th.home, th.prio, x, th.yielding)
    ensures Lists(RemoveFrom(queues, x, th)) == Departed(Lists(queues), th.home, th.prio, x)
  {
  }

  /** The first of the best list is ready, on no core, and at the priority and home of the list. */
  lemma BestIsReady(levels: nat, queues: Queues, threads: Threads, current: seq<Option<Tid>>, c: nat, home: nat, h: nat)
    requires Placed(levels, queues, threads, current) && c < |current|
    requires Best(FirstReady(queues[|current|].lists), FirstReady(queues[c].lists), |current|, c) == Some((home, h))
    ensures home < |queues| && (home == c || home == |current|) && h < |queues[home].lists| && queues[home].lists[h] != []
    ensures var to := queues[home].lists[h][0];
      && to in threads && threads[to].stat == Ready && threads[to].prio == h && threads[to].home == home
      && threads[to].masks == MasksFor(levels, h) && current[c] != Some(to) && threads[to].oncpu == None
  {
    assert QueueAt(levels, queues, threads, home);
    var to := queues[home].lists[h][0];
    Queued(queues[home], threads, home, h, to);
    assert ThreadOk(levels, |current|, threads, current, to);
    assert CoreOk(threads, current, c);
  }

  /** The running thread leaves its core: into a queue if it could go on, and off the core in any case. */
  ghost predicate Left(queues: Queues, threads: Threads, x: Tid, queues': Queues, threads': Threads) {
    && x in threads
    && var cur := threads[x];
       var runs := cur.stat == Running;
       && queues' == (if runs then InsertInto(queues, x, cur) else queues)
       && threads' == threads[x := cur.(stat := if runs then Ready else cur.stat, oncpu := None, yielding := !runs && cur.yielding)]
  }

  lemma LeftKeeps(levels: nat, queues: Queues, threads: Threads, current: seq<Option<Tid>>, c: nat, queues': Queues, threads': Threads)
    requires Placed(levels, queues, threads, current) && c < |current| && current[c].Some?
    requires Left(queues, threads, current[c].value, queues', threads')
    ensures Placed(levels, queues', threads', current[c := None])
  {
    var x := current[c].value;
    var cur, left := threads[x], threads'[x];
    assert CoreOk(threads, current, c);
    assert ThreadOk(levels, |current|, threads, current, x);
    if cur.stat == Running {
      QueuesInsert(levels, queues, threads, x, left, cur.yielding);
    } else {
      QueuesIdle(levels, queues, threads, x, left);
    }
    hide QueuesOk;
    LeavesCore(levels, threads, current, c, left);
  }

  lemma LeavesCore(levels: nat, threads: Threads, current: seq<Option<Tid>>, c: nat, th: Thread)
    requires ThreadsOk(levels, |current|, threads, current) && c < |current| && current[c].Some? && current[c].value in threads
    requires MasksOk(levels, th) && th.home <= |current| && th.oncpu == None && th.stat != Running
    ensures ThreadsOk(levels, |current|, threads[current[c].value := th], current[c := None])
  {
    var x := current[c].value;
    var threads', current' := threads[x := th], current[c := None];
    assert CoreOk(threads, current, c);
    forall y | y in threads'
      ensures ThreadOk(levels, |current|, threads', current', y)
    {
      assert ThreadOk(levels, |current|, threads, current, y);
    }
    forall d: nat
      ensures CoreOk(threads', current', d)
    {
      assert CoreOk(threads, current, d);
    }
  }

  /** The status of the first thread of a core is overwritten, its yield flag included. */
  lemma StartedKeeps(levels: nat, queues: Queues, threads: Threads, current: seq<Option<Tid>>, to: Tid)
    requires Placed(levels, queues, threads, current) && to in threads && threads[to].stat == Running
    ensures Placed(levels, queues, threads[to := threads[to].(yielding := false)], current)
  {
    assert ThreadOk(levels, |current|, threads, current, to);
    QueuesIdle(levels, queues, threads, to, threads[to].(yielding := false));
    ThreadsChange(levels, |current|, threads, current, to, threads[to].(yielding := false));
    hide QueuesOk, ThreadsOk;
  }

  lemma ArrivesKeeps(levels: nat, queues: Queues, threads: Threads, current: seq<Option<Tid>>, c: nat, to: Tid)
    requires Placed(levels, queues, threads, current) && c < |current| && current[c] == None
    requires to in threads && threads[to].stat == Ready
    ensures Placed(levels, RemoveFrom(queues, to, threads[to]), threads[to := threads[to].(stat := Running, oncpu := Some(c))], current[c := Some(to)])
  {
    var th, current' := threads[to].(stat := Running, oncpu := Some(c)), current[c := Some(to)];
    var threads' := threads[to := th];
    assert ThreadOk(levels, |current|, threads, current, to);
    QueuesRemove(levels, queues, threads, to, th);
    hide QueuesOk;
    forall y | y in threads'
      ensures ThreadOk(levels, |current|, threads', current', y)
    {
      assert ThreadOk(levels, |current|, threads, current, y);
    }
    forall d: nat
      ensures CoreOk(threads', current', d)
    {
      assert CoreOk(threads, current, d);
    }
  }

  /** After a switch the core runs, of all threads it may run, one of the most urgent. */
  lemma BestRuns(levels: nat, queues: Queues, threads: Threads, current: seq<Option<Tid>>, c: nat, x: Tid)
    requires Placed(levels, queues, threads, current) && c < |current| && current[c].Some?
    requires FirstReady(queues[|current|].lists).Some? || FirstReady(queues[c].lists).Some?
    ensures var s' := Switched(State(Lists(queues), threads, current), c);
      && s'.current[c].Some? && s'.current[c].value in s'.threads
      && s'.threads[s'.current[c].value].stat == Running
      && (s'.threads[s'.current[c].value].home == c || s'.threads[s'.current[c].value].home == |current|)
      && (x in s'.threads && s'.threads[x].stat == Ready && (s'.threads[x].home == c || s'.threads[x].home == |current|)
          ==> s'.threads[s'.current[c].value].prio <= s'.threads[x].prio)
  {
    var n, cur := |current|, current[c].value;
    var best := Best(FirstReady(queues[n].lists), FirstReady(queues[c].lists), n, c);
    BestIsReady(levels, queues, threads, current, c, best.value.0, best.value.1);
    assert CoreOk(threads, current, c);
    assert ThreadOk(levels, n, threads, current, cur);
    NoneMoreUrgent(levels, queues, threads, current, c, x, best.value.0, best.value.1);
    hide QueuesOk, ThreadsOk, ThreadOk, FirstReady, Entered, Departed;
    SwitchedRuns(State(Lists(queues), threads, current), c, best.value.0, best.value.1, x);
  }

  lemma NoneMoreUrgent(levels: nat, queues: Queues, threads: Threads, current: seq<Option<Tid>>, c: nat, x: Tid, home: nat, h: nat)
    requires Placed(levels, queues, threads, current) && c < |current|
    requires Best(FirstReady(queues[|current|].lists), FirstReady(queues[c].lists), |current|, c) == Some((home, h))
    ensures x in threads && threads[x].stat == Ready && Eligible(|current|, c, threads[x]) ==> threads[x].prio >= h
  {
    if x in threads && threads[x].stat == Ready {
      assert ThreadOk(levels, |current|, threads, current, x);
      assert QueueAt(levels, queues, threads, threads[x].home);
      ReadyIsQueued(queues[threads[x].home], threads, threads[x].home, x);
    }
  }

  lemma SwitchedRuns(s: State, c: nat, home: nat, h: nat, x: Tid)
    requires c < |s.current| && |s.lists| == |s.current| + 1 && s.current[c].Some? && s.current[c].value in s.threads
    requires Best(FirstReady(s.lists[|s.current|]), FirstReady(s.lists[c]), |s.current|, c) == Some((home, h))
    requires home < |s.lists| && (home == c || home == |s.current|) && h < |s.lists[home]| && s.lists[home][h] != []
    requires var to := s.lists[home][h][0];
      to in s.threads && s.threads[to].prio == h && s.threads[to].home == home && s.current[c] != Some(to)
    requires x in s.threads && s.threads[x].stat == Ready && Eligible(|s.current|, c, s.threads[x]) ==> s.threads[x].prio >= h
    ensures var s' := Switched(s, c);
      && |s'.current| == |s.current| && s'.current[c].Some? && s'.current[c].value in s'.threads
      && s'.threads[s'.current[c].value].stat == Running && Eligible(|s.current|, c, s'.threads[s'.current[c].value])
      && (x in s'.threads && s'.threads[x].stat == Ready && Eligible(|s.current|, c, s'.threads[x])
          ==> s'.threads[s'.current[c].value].prio <= s'.threads[x].prio)
  {
    hide FirstReady, Entered, Departed;
  }

  lemma NothingReady(s: State, c: nat)
    requires c < |s.current| && |s.lists| == |s.current| + 1 && s.current[c].Some?
    requires FirstReady(s.lists[|s.current|]) == None && FirstReady(s.lists[c]) == None
    ensures Switched(s, c) == s
  {
  }

  lemma StaysIs(s: State, c: nat, home: nat, h: nat)
    requires c < |s.current| && |s.lists| == |s.current| + 1 && s.current[c].Some? && s.current[c].value in s.threads
    requires Best(FirstReady(s.lists[|s.current|]), FirstReady(s.lists[c]), |s.current|, c) == Some((home, h))
    requires home < |s.lists| && h < |s.lists[home]| && s.lists[home][h] != []
    requires Keeps(s.threads[s.current[c].value], |s.current|, c, h)
    ensures var x := s.current[c].value; Switched(s, c) == s.(threads := s.threads[x := s.threads[x].(yielding := false)])
  {
  }

  lemma StayKeeps(levels: nat, queues: Queues, threads: Threads, current: seq<Option<Tid>>, x: Tid)
    requires Placed(levels, queues, threads, current) && x in threads
    ensures Placed(levels, queues, threads[x := threads[x].(yielding := false)], current)
  {
    var th := threads[x].(yielding := false);
    assert ThreadOk(levels, |current|, threads, current, x);
    QueuesSameThread(levels, queues, threads, x, th);
    ThreadsChange(levels, |current|, threads, current, x, th);
    hide QueuesOk, ThreadsOk;
  }

  /** The two halves of a switch, together. */
  lemma SwitchKeeps(levels: nat, queues: Queues, threads: Threads, current: seq<Option<Tid>>, c: nat, home: nat, h: nat, left: Queues, remain: Threads)
    requires Placed(levels, queues, threads, current) && c < |current| && current[c].Some?
    requires Best(FirstReady(queues[|current|].lists), FirstReady(queues[c].lists), |current|, c) == Some((home, h))
    requires Left(queues, threads, current[c].value, left, remain)
    requires home < |queues| && h < |queues[home].lists| && queues[home].lists[h] != [] && !Keeps(threads[current[c].value], |current|, c, h)
    ensures var to := queues[home].lists[h][0];
      && to in remain
      && Placed(levels, RemoveFrom(left, to, remain[to]), remain[to := remain[to].(stat := Running, oncpu := Some(c))], current[c := Some(to)])
      && State(Lists(RemoveFrom(left, to, remain[to])), remain[to := remain[to].(stat := Running, oncpu := Some(c))], current[c := Some(to)])
         == Switched(State(Lists(queues), threads, current), c)
  {
    var x, to := current[c].value, queues[home].lists[h][0];
    BestIsReady(levels, queues, threads, current, c, home, h);
    LeftKeeps(levels, queues, threads, current, c, left, remain);
    ListsAfter(queues, x, threads[x]);
    ListsAfter(left, to, remain[to]);
    hide QueuesOk, ThreadsOk, FirstReady, InsertInto, RemoveFrom, Entered, Departed;
    ArrivesKeeps(levels, left, remain, current[c := None], c, to);
    assert current[c := None][c := Some(to)] == current[c := Some(to)];
  }

  lemma NewThread(levels: nat, n: nat, threads: Threads, current: seq<Option<Tid>>, x: Tid, th: Thread)
    requires ThreadsOk(levels, n, threads, current) && x !in threads
    requires th.prio < levels && th.stat == Init && th.home <= n && th.oncpu == None
    ensures ThreadsOk(levels, n, threads[x := th], current)
  {
    var threads' := threads[x := th];
    forall y | y in threads'
      ensures ThreadOk(levels, n, threads', current, y)
    {
      assert y in threads ==> ThreadOk(levels, n, threads, current, y);
    }
    forall c: nat
      ensures CoreOk(threads', current, c)
    {
      assert CoreOk(threads, current, c);
    }
  }

  lemma ReadyPlaced(levels: nat, queues: Queues, threads: Threads, current: seq<Option<Tid>>, x: Tid)
    requires Placed(levels, queues, threads, current) && x in threads && threads[x].stat == Suspended
    ensures var on := threads[x].oncpu.Some?;
      var th := threads[x].(stat := if on then Running else Ready);
      Placed(levels, if on then queues else InsertInto(queues, x, th), threads[x := th], current)
    ensures threads[x].home < |queues| && threads[x].prio < |queues[threads[x].home].lists|
  {
    var on := threads[x].oncpu.Some?;
    var th := threads[x].(stat := if on then Running else Ready);
    assert ThreadOk(levels, |current|, threads, current, x);
    assert QueueAt(levels, queues, threads, th.home);
    ThreadsChange(levels, |current|, threads, current, x, th);
    if on {
      QueuesIdle(levels, queues, threads, x, th);
    } else {
      QueuesInsert(levels, queues, threads, x, th, th.yielding);
    }
    hide QueuesOk, ThreadsOk;
  }

  lemma DepartedNothing(levels: nat, queues: Queues, threads: Threads, x: Tid)
    requires QueuesOk(levels, queues, threads) && x in threads && threads[x].stat != Ready
    ensures Departed(Lists(queues), threads[x].home, threads[x].prio, x) == Lists(queues)
  {
    var th := threads[x];
    if th.home < |queues| && th.prio < |queues[th.home].lists| {
      assert QueueAt(levels, queues, threads, th.home);
      assert ListOk(queues[th.home], threads, th.home, th.prio);
      assert !Listed(threads, th.home, th.prio, x);
      WithoutMembers(queues[th.home].lists[th.prio], x);
      var ls := queues[th.home].lists;
      assert ls[th.prio := ls[th.prio]] == ls;
      assert Lists(queues)[th.home := ls] == Lists(queues);
    }
  }

  lemma ReadyIsPlaced(levels: nat, queues: Queues, threads: Threads, current: seq<Option<Tid>>, x: Tid)
    requires Placed(levels, queues, threads, current) && x in threads && threads[x].stat == Ready
    ensures var th := threads[x];
      th.home < |queues| && th.prio < |queues[th.home].lists| && x in queues[th.home].lists[th.prio]
  {
    var th := threads[x];
    assert ThreadOk(levels, |current|, threads, current, x);
    assert QueueAt(levels, queues, threads, th.home);
    assert ListOk(queues[th.home], threads, th.home, th.prio);
    assert Listed(threads, th.home, th.prio, x);
  }

  /** A ready thread that has left its queue, and says that it is ready, is nowhere. */
  lemma BindLoses(levels: nat, queues: Queues, threads: Threads, current: seq<Option<Tid>>, x: Tid, th: Thread)
    requires Placed(levels, queues, threads, current) && x in threads && threads[x].stat == Ready
    requires th == threads[x].(home := th.home) && th.home <= |current|
    ensures threads[x].home < |queues| && threads[x].prio < |queues[threads[x].home].lists| && th.home < |queues|
    ensures var queues' := RemoveFrom(queues, x, threads[x]);
      && |queues'| == |queues| && th.prio < |queues'[th.home].lists|
      && (forall h, p :: 0 <= h < |queues'| && 0 <= p < |queues'[h].lists| ==> x !in queues'[h].lists[p])
      && !Placed(levels, queues', threads[x := th], current)
  {
    var was, queues' := threads[x], RemoveFrom(queues, x, threads[x]);
    assert ThreadOk(levels, |current|, threads, current, x);
    assert QueueAt(levels, queues, threads, was.home) && QueueAt(levels, queues, threads, th.home);
    QueuesRemove(levels, queues, threads, x, was.(stat := Init));
    ListsAfter(queues, x, was);
    var gone := threads[x := was.(stat := Init)];
    forall h: nat, p: nat | h < |queues'| && p < |queues'[h].lists|
      ensures x !in queues'[h].lists[p]
    {
      assert QueueAt(levels, queues', gone, h);
      assert ListOk(queues'[h], gone, h, p);
      assert !Listed(gone, h, p, x);
    }
    hide Lists;
    if Placed(levels, queues', threads[x := th], current) {
      ReadyIsPlaced(levels, queues', threads[x := th], current, x);
      assert false;
    }
  }

  /** A signed number in an unsigned 32-bit variable. */
  function Unsigned(i: int): nat {
    i % 0x1_0000_0000
  }

  lemma UnsignedOrder(g: Option<nat>, l: Option<nat>)
    requires (g.Some? ==> g.value < 256) && (l.Some? ==> l.value < 256)
    ensures Unsigned(PrioOf(g)) < Unsigned(PrioOf(l)) <==> g.Some? && (l.None? || g.value < l.value)
    ensures Unsigned(PrioOf(l)) == Unsigned(-1) <==> l.None?
    ensures g.Some? ==> Unsigned(PrioOf(g)) == g.value
    ensures l.Some? ==> Unsigned(PrioOf(l)) == l.value
  {
  }

  class Scheduler {
    const tiny: bool
    const levels: nat
    var queues: Queues
    var threads: Threads
    var current: seq<Option<Tid>>

    ghost predicate Valid()
      reads this
    {
      Placed(levels, queues, threads, current)
    }

    function St(): State
      reads this
    {
      State(Lists(queues), threads, current)
    }

    /** `rt_system_scheduler_init`. */
    constructor (levels: nat, cores: nat, tiny: bool)
      requires 0 < levels <= 256
      ensures Valid() && threads == map[] && |current| == cores && this.levels == levels
    {
      this.tiny, this.levels := tiny, levels;
      queues := seq(cores + 1, i => Empty(levels));
      threads := map[];
      current := seq(cores, i => None);
      new;
      EmptyAgrees(levels);
      forall h: nat
        ensures QueueAt(levels, queues, threads, h)
      {
        forall p: nat | h < |queues| && p < levels
          ensures ListOk(queues[h], threads, h, p)
        {
        }
      }
    }

    /** `_sched_insert_thread_locked`. */
    method InsertThread(x: Tid)
      requires x in threads && threads[x].home < |queues| && threads[x].prio < |queues[threads[x].home].lists|
      modifies this`queues, this`threads
      ensures old(threads)[x].stat == Ready ==> threads == old(threads) && queues == old(queues)
      ensures old(threads)[x].stat != Ready && old(threads)[x].oncpu.Some? ==>
        threads == old(threads)[x := old(threads)[x].(stat := Running)] && queues == old(queues)
      ensures old(threads)[x].stat != Ready && old(threads)[x].oncpu.None? ==>
        threads == old(threads)[x := old(threads)[x].(stat := Ready)] && queues == InsertInto(old(queues), x, threads[x])
      ensures old(threads)[x].stat != Ready && old(threads)[x].oncpu.None? ==>
        var th := old(threads)[x];
        var xs := old(queues)[th.home].lists[th.prio];
        && |queues| == |old(queues)| && th.home < |queues| && (forall h :: 0 <= h < |queues| && h != th.home ==> queues[h] == old(queues)[h])
        && queues[th.home].lists == old(queues)[th.home].lists[th.prio := if th.yielding then xs + [x] else [x] + xs]
    {
      if threads[x].stat == Ready {
        return;
      } else if threads[x].oncpu.Some? {
        threads := threads[x := threads[x].(stat := Running)];
        return;
      }
      threads := threads[x := threads[x].(stat := Ready)];
      queues := InsertInto(queues, x, threads[x]);
    }

    /** `_sched_remove_thread_locked`. */
    method RemoveThread(x: Tid)
      requires x in threads
      modifies this`queues
      ensures queues == RemoveFrom(old(queues), x, threads[x])
      ensures var th := threads[x];
        th.home < |old(queues)| && th.prio < |old(queues)[th.home].lists| ==>
          && queues == old(queues)[th.home := queues[th.home]]
          && TakenOut(old(queues)[th.home], queues[th.home], th.prio, th.masks, x)
    {
      if threads[x].home < |queues| && threads[x].prio < |queues[threads[x].home].lists| {
        RemoveTakesOut(queues[threads[x].home], threads[x].prio, threads[x].masks, x);
      }
      queues := RemoveFrom(queues, x, threads[x]);
    }

    /** `_scheduler_get_highest_priority_thread`: an empty queue's priority, -1, is the largest unsigned number. */
    method HighestThread(c: nat) returns (to: Option<Tid>, prio: nat)
      requires Valid() && c < |current|
      ensures match Best(FirstReady(queues[|current|].lists), FirstReady(queues[c].lists), |current|, c)
              case None => to.None?
              case Some((home, h)) => prio == h && home < |queues| && h < |queues[home].lists|
                                      && queues[home].lists[h] != [] && to == Some(queues[home].lists[h][0])
    {
      var n := |current|;
      assert QueueAt(levels, queues, threads, n) && QueueAt(levels, queues, threads, c);
      HighestIsFirst(tiny, queues[n]);
      HighestIsFirst(tiny, queues[c]);
      hide QueuesOk, ThreadsOk, ListOk, Highest, AgreesAt, ByteAt, Unsigned;
      UnsignedOrder(FirstReady(queues[n].lists), FirstReady(queues[c].lists));
      var g, l := Unsigned(Highest(tiny, queues[n])), Unsigned(Highest(tiny, queues[c]));
      if g < l {
        prio := g;
        to := Some(queues[n].lists[g][0]);
      } else {
        prio := l;
        to := if l != Unsigned(-1) then Some(queues[c].lists[l][0]) else None;
      }
    }

    /** `_prepare_context_switch_locked`, with the update of the current thread that follows. */
    method Switch(c: nat)
      requires Valid() && c < |current| && current[c].Some?
      modifies this
      ensures Valid() && |current| == |old(current)| && St() == Switched(old(St()), c)
    {
      ghost var best := Best(FirstReady(queues[|current|].lists), FirstReady(queues[c].lists), |current|, c);
      assert QueueAt(levels, queues, threads, |current|) && QueueAt(levels, queues, threads, c);
      GroupIsZeroIff(queues[|current|]);
      GroupIsZeroIff(queues[c]);
      hide QueuesOk, ThreadsOk, QueueOk, Agrees, FirstReady, Switched;
      if queues[|current|].group != 0 || queues[c].group != 0 {
        Decide(c, best.value.0, best.value.1);
      } else {
        NothingReady(St(), c);
      }
    }

    /** The current thread comes off core `c`, for good or to stay. */
    method Leave(c: nat, x: Tid, prio: nat) returns (stays: bool)
      requires Valid() && c < |current| && current[c] == Some(x) && x in threads && threads[x].oncpu.Some?
      modifies this`queues, this`threads
      ensures stays == Keeps(old(threads)[x], |current|, c, prio)
      ensures stays ==> queues == old(queues) && threads == old(threads)[x := old(threads)[x].(oncpu := None, yielding := false)]
      ensures !stays ==> Left(old(queues), old(threads), x, queues, threads)
    {
      assert ThreadOk(levels, |current|, threads, current, x);
      assert QueueAt(levels, queues, threads, threads[x].home);
      hide QueuesOk, ThreadsOk, ThreadOk;
      ghost var cur := threads[x];
      threads := threads[x := threads[x].(oncpu := None)];
      stays := false;
      if threads[x].stat == Running {
        if threads[x].home == |current| || threads[x].home == c {
          if threads[x].prio < prio {
            stays := true;
          } else if threads[x].prio == prio && !threads[x].yielding {
            stays := true;
          } else {
            InsertThread(x);
          }
        } else {
          InsertThread(x);
        }
        threads := threads[x := threads[x].(yielding := false)];
      }
      assert stays ==> threads == old(threads)[x := cur.(oncpu := None, yielding := false)];
    }

    /** Thread `to` gets core `c`; if it was not running there, it comes off its queue. */
    method Arrive(c: nat, to: Tid, stays: bool)
      requires c < |current| && to in threads
      modifies this
      ensures |current| == |old(current)|
      ensures stays ==> queues == old(queues) && current == old(current) && threads == old(threads)[to := old(threads)[to].(oncpu := Some(c))]
      ensures !stays ==> queues == RemoveFrom(old(queues), to, old(threads)[to]) && current == old(current)[c := Some(to)]
      ensures !stays ==> threads == old(threads)[to := old(threads)[to].(stat := Running, oncpu := Some(c))]
    {
      threads := threads[to := threads[to].(oncpu := Some(c))];
      if !stays {
        RemoveThread(to);
        threads := threads[to := threads[to].(stat := Running)];
        current := current[c := Some(to)];
      }
    }

    method Decide(c: nat, ghost home: nat, ghost h: nat)
      requires Valid() && c < |current| && current[c].Some?
      requires Best(FirstReady(queues[|current|].lists), FirstReady(queues[c].lists), |current|, c) == Some((home, h))
      modifies this
      ensures Valid() && |current| == |old(current)| && St() == Switched(old(St()), c)
    {
      ghost var qs, ths, cs := queues, threads, current;
      var x := current[c].value;
      BestIsReady(levels, queues, threads, current, c, home, h);
      assert CoreOk(threads, current, c);
      var picked, prio := HighestThread(c);
      hide QueuesOk, ThreadsOk, FirstReady, CoreOk, InsertInto, RemoveFrom, Switched;
      var stays := Leave(c, x, prio);
      var to := if stays then x else picked.value;
      ghost var left, remain := queues, threads;
      Arrive(c, to, stays);
      if stays {
        StayKeeps(levels, qs, ths, cs, x);
        StaysIs(State(Lists(qs), ths, cs), c, home, h);
        assert threads == ths[x := ths[x].(yielding := false)];
      } else {
        SwitchKeeps(levels, qs, ths, cs, c, home, h, left, remain);
      }
    }

    /** `rt_system_scheduler_start` on core `c`. */
    method Start(c: nat)
      requires Valid() && c < |current| && current[c].None?
      requires Best(FirstReady(queues[|current|].lists), FirstReady(queues[c].lists), |current|, c).Some?
      modifies this
      ensures Valid() && |current| == |old(current)| && current[c].Some? && current[c].value in threads
      ensures match Best(FirstReady(old(queues)[|current|].lists), FirstReady(old(queues)[c].lists), |current|, c)
              case None => true
              case Some((home, h)) =>
                && home < |old(queues)| && h < |old(queues)[home].lists| && old(queues)[home].lists[h] != []
                && current == old(current)[c := Some(old(queues)[home].lists[h][0])]
                && Lists(queues) == Departed(Lists(old(queues)), home, h, current[c].value)
      ensures current[c].value in old(threads)
      ensures threads == old(threads)[current[c].value := old(threads)[current[c].value].(stat := Running, oncpu := Some(c), yielding := false)]
    {
      ghost var best := Best(FirstReady(queues[|current|].lists), FirstReady(queues[c].lists), |current|, c);
      BestIsReady(levels, queues, threads, current, c, best.value.0, best.value.1);
      var to, prio := HighestThread(c);
      ArrivesKeeps(levels, queues, threads, current, c, to.value);
      ListsAfter(queues, to.value, threads[to.value]);
      hide QueuesOk, ThreadsOk, FirstReady, RemoveFrom, Departed;
      Arrive(c, to.value, false);
      StartedKeeps(levels, queues, threads, current, to.value);
      threads := threads[to.value := threads[to.value].(yielding := false)];
    }

    method Create(x: Tid, prio: nat, tick: nat)
      requires Valid() && x !in threads && prio < levels
      modifies this`threads
      ensures Valid() && threads == old(threads)[x := Thread(prio, Masks(0, 0, 0), Init, false, tick, tick, |current|, None)]
    {
      var th := Thread(prio, Masks(0, 0, 0), Init, false, tick, tick, |current|, None);
      QueuesIdle(levels, queues, threads, x, th);
      NewThread(levels, |current|, threads, current, x, th);
      hide QueuesOk, ThreadsOk;
      threads := threads[x := th];
    }

    method Startup(x: Tid)
      requires Valid() && x in threads && threads[x].stat == Init
      modifies this`threads
      ensures Valid() && threads == old(threads)[x := old(threads)[x].(masks := MasksFor(levels, old(threads)[x].prio), stat := Suspended, yielding := false)]
    {
      assert ThreadOk(levels, |current|, threads, current, x);
      var th := threads[x].(masks := MasksFor(levels, threads[x].prio), stat := Suspended, yielding := false);
      QueuesIdle(levels, queues, threads, x, th);
      ThreadsChange(levels, |current|, threads, current, x, th);
      hide QueuesOk, ThreadsOk;
      threads := threads[x := th];
    }

    /** `rt_sched_thread_ready`, but for the thread's timer: a thread that is still on a core goes on running there. */
    method MakeReady(x: Tid) returns (ok: bool)
      requires Valid() && x in threads
      modifies this`queues, this`threads
      ensures Valid() && ok == (old(threads)[x].stat == Suspended)
      ensures !ok ==> queues == old(queues) && threads == old(threads)
      ensures ok ==> threads == old(threads)[x := old(threads)[x].(stat := if old(threads)[x].oncpu.Some? then Running else Ready)]
      ensures ok ==> Lists(queues) == if threads[x].oncpu.Some? then Lists(old(queues))
                                      else Entered(Lists(old(queues)), threads[x].home, threads[x].prio, x, threads[x].yielding)
    {
      ok := threads[x].stat == Suspended;
      if ok {
        ReadyPlaced(levels, queues, threads, current, x);
        ListsAfter(queues, x, threads[x].(stat := Ready));
        hide QueuesOk, ThreadsOk, InsertInto;
        InsertThread(x);
      }
    }

    /** `rt_thread_suspend_to_list`, of the thread on core `c`; the core keeps it until the next switch. */
    method Suspend(c: nat) returns (ok: bool)
      requires Valid() && c < |current| && current[c].Some? && current[c].value in threads
      modifies this`queues, this`threads
      ensures Valid() && ok == (old(threads)[current[c].value].stat == Running) && Lists(queues) == Lists(old(queues))
      ensures threads == if ok then old(threads)[current[c].value := old(threads)[current[c].value].(stat := Suspended)] else old(threads)
    {
      var x := current[c].value;
      assert CoreOk(threads, current, c);
      assert ThreadOk(levels, |current|, threads, current, x);
      ok := threads[x].stat == Ready || threads[x].stat == Running;
      if ok {
        var th := threads[x].(stat := Suspended);
        QueuesRemoveNothing(levels, queues, threads, x);
        ListsAfter(queues, x, threads[x]);
        DepartedNothing(levels, queues, threads, x);
        QueuesIdle(levels, RemoveFrom(queues, x, threads[x]), threads, x, th);
        ThreadsChange(levels, |current|, threads, current, x, th);
        hide QueuesOk, ThreadsOk, RemoveFrom;
        RemoveThread(x);
        threads := threads[x := th];
      }
    }

    method Yield(x: Tid)
      requires Valid() && x in threads
      modifies this`threads
      ensures Valid() && threads == old(threads)[x := old(threads)[x].(remaining := old(threads)[x].init, yielding := true)]
    {
      assert ThreadOk(levels, |current|, threads, current, x);
      var th := threads[x].(remaining := threads[x].init, yielding := true);
      QueuesSameThread(levels, queues, threads, x, th);
      ThreadsChange(levels, |current|, threads, current, x, th);
      hide QueuesOk, ThreadsOk;
      threads := threads[x := th];
    }

    /** `rt_sched_thread_change_priority`: a ready thread enters its new list at the front, and its yield flag is cleared. */
    method ChangePriority(x: Tid, prio: nat)
      requires Valid() && x in threads && prio < levels
      modifies this`queues, this`threads
      ensures Valid()
      ensures var was := old(threads)[x];
        threads == old(threads)[x := was.(prio := prio, masks := MasksFor(levels, prio), yielding := was.yielding && was.stat != Ready)]
      ensures old(threads)[x].stat != Ready ==> queues == old(queues)
      ensures old(threads)[x].stat == Ready ==>
        var was := old(threads)[x];
        Lists(queues) == Entered(Departed(Lists(old(queues)), was.home, was.prio, x), was.home, prio, x, false)
    {
      ghost var was := threads[x];
      assert ThreadOk(levels, |current|, threads, current, x);
      var th := threads[x].(prio := prio, masks := MasksFor(levels, prio), yielding := threads[x].yielding && threads[x].stat != Ready);
      ThreadsChange(levels, |current|, threads, current, x, th);
      if threads[x].stat == Ready {
        var moving := th.(stat := Init);
        QueuesRemove(levels, queues, threads, x, moving);
        QueuesInsert(levels, RemoveFrom(queues, x, was), threads[x := moving], x, th, false);
        assert threads[x := moving][x := th] == threads[x := th];
        ListsAfter(queues, x, was);
        ListsAfter(RemoveFrom(queues, x, was), x, th);
        hide QueuesOk, ThreadsOk;
        RemoveThread(x);
        threads := threads[x := moving];
        InsertThread(x);
        assert threads == old(threads)[x := th];
      } else {
        QueuesIdle(levels, queues, threads, x, th);
        hide QueuesOk, ThreadsOk;
        threads := threads[x := th];
      }
    }

    /**
     The scheduler's part of `rt_sched_thread_bind_cpu`. A ready thread is lost: it leaves its queue, and because
     its status still says that it is ready it does not enter the other. For all others placement is kept.
     */
    method Bind(x: Tid, cpu: nat)
      requires Valid() && x in threads
      modifies this`queues, this`threads
      ensures threads == old(threads)[x := old(threads)[x].(home := if cpu >= |current| then |current| else cpu)]
      ensures Valid() <==> old(threads)[x].stat != Ready
      ensures old(threads)[x].stat == Ready ==> forall h, p :: 0 <= h < |queues| && 0 <= p < |queues[h].lists| ==> x !in queues[h].lists[p]
    {
      var home := if cpu >= |current| then |current| else cpu;
      var th := threads[x].(home := home);
      assert ThreadOk(levels, |current|, threads, current, x);
      if threads[x].stat == Ready {
        BindLoses(levels, queues, threads, current, x, th);
        hide QueuesOk, ThreadsOk, RemoveFrom;
        RemoveThread(x);
        threads := threads[x := th];
        InsertThread(x);
      } else {
        QueuesIdle(levels, queues, threads, x, th);
        ThreadsChange(levels, |current|, threads, current, x, th);
        hide QueuesOk, ThreadsOk;
        threads := threads[x := th];
      }
    }
  }

  /** A run that loses a thread: it is created, started and made ready, and then bound to a core, whichever. */
  method BindLosesThread(levels: nat, cores: nat, tiny: bool, x: Tid, prio: nat, tick: nat, cpu: nat) returns (s: Scheduler)
    requires 0 < levels <= 256 && prio < levels
    ensures fresh(s) && x in s.threads && s.threads[x].stat == Ready && !s.Valid()
    ensures forall h, p :: 0 <= h < |s.queues| && 0 <= p < |s.queues[h].lists| ==> x !in s.queues[h].lists[p]
  {
    s := new Scheduler(levels, cores, tiny);
    s.Create(x, prio, tick);
    s.Startup(x);
    var ok := s.MakeReady(x);
    s.Bind(x, cpu);
  }
}
