/**
 Where threads are: what the ready queues of either scheduler hold, and what insertion and removal do to it.
 `home` is the queue a thread belongs to when it is ready.
 */
module Placement {
  import opened Wrappers
  import opened Sequences
  import opened ReadyTable

  datatype Stat = Init | Ready | Running | Suspended | Closed

  /** `init` and `remaining` are the ticks of the time slice; `oncpu` is used by the multi-core scheduler only. */
  datatype Thread = Thread(prio: nat, masks: Masks, stat: Stat, yielding: bool,
                           init: nat, remaining: nat, home: nat, oncpu: Option<nat>)

  type Threads = map<Tid, Thread>

  ghost predicate Listed(threads: Threads, home: nat, p: nat, x: Tid) {
    x in threads && threads[x].stat == Ready && threads[x].prio == p && threads[x].home == home
  }

  ghost predicate ListOk(t: Table, threads: Threads, home: nat, p: nat)
    requires p < |t.lists|
  {
    Distinct(t.lists[p]) && forall x {:trigger Listed(threads, home, p, x)} :: x in t.lists[p] <==> Listed(threads, home, p, x)
  }

  /** The queue holds exactly the ready threads of its home, each once, in the list of its priority. */
  ghost predicate QueueOk(t: Table, threads: Threads, home: nat) {
    Agrees(t) && forall p: nat {:trigger ListOk(t, threads, home, p)} :: p < |t.lists| ==> ListOk(t, threads, home, p)
  }

  /** The bits of a thread that has been started, and not closed, are those of its priority. */
  ghost predicate MasksOk(levels: nat, th: Thread) {
    th.prio < levels && (th.stat != Init && th.stat != Closed ==> th.masks == MasksFor(levels, th.prio))
  }

  lemma QueueFrame(t: Table, threads: Threads, threads': Threads, home: nat)
    requires QueueOk(t, threads, home)
    requires forall p: nat, x: Tid :: Listed(threads', home, p, x) <==> Listed(threads, home, p, x)
    ensures QueueOk(t, threads', home)
  {
    forall p: nat | p < |t.lists|
      ensures ListOk(t, threads', home, p)
    {
      assert ListOk(t, threads, home, p);
      forall x
        ensures x in t.lists[p] <==> Listed(threads', home, p, x)
      {
        assert Listed(threads', home, p, x) <==> Listed(threads, home, p, x);
      }
    }
  }

  /** A change of one thread that was not ready and is not. */
  lemma QueueIdle(t: Table, threads: Threads, home: nat, x: Tid, th: Thread)
    requires QueueOk(t, threads, home) && th.stat != Ready
    requires x in threads ==> threads[x].stat != Ready
    ensures QueueOk(t, threads[x := th], home)
  {
    QueueFrame(t, threads, threads[x := th], home);
  }

  /** A change of one thread of another home. */
  lemma QueueElsewhere(t: Table, threads: Threads, home: nat, x: Tid, th: Thread)
    requires QueueOk(t, threads, home) && (th.stat != Ready || th.home != home)
    requires x in threads ==> threads[x].stat != Ready || threads[x].home != home
    ensures QueueOk(t, threads[x := th], home)
  {
    QueueFrame(t, threads, threads[x := th], home);
  }

  /** Ready threads whose place does not change. */
  lemma QueueSameThread(t: Table, threads: Threads, home: nat, x: Tid, th: Thread)
    requires QueueOk(t, threads, home) && x in threads
    requires th.stat == threads[x].stat && th.prio == threads[x].prio && th.home == threads[x].home
    ensures QueueOk(t, threads[x := th], home)
  {
    QueueFrame(t, threads, threads[x := th], home);
  }

  lemma QueueInsert(t: Table, threads: Threads, home: nat, x: Tid, th: Thread, atEnd: bool)
    requires QueueOk(t, threads, home) && th.stat == Ready && th.home == home && MasksOk(|t.lists|, th)
    requires x in threads ==> threads[x].stat != Ready
    ensures QueueOk(Insert(t, th.prio, th.masks, x, atEnd), threads[x := th], home)
  {
    var t', threads' := Insert(t, th.prio, th.masks, x, atEnd), threads[x := th];
    InsertAgrees(t, th.prio, x, atEnd);
    hide Agrees, SetBit;
    forall p: nat | p < |t'.lists|
      ensures ListOk(t', threads', home, p)
    {
      assert ListOk(t, threads, home, p);
      assert x !in t.lists[p] by { assert !Listed(threads, home, p, x); }
      forall y
        ensures y in t'.lists[p] <==> Listed(threads', home, p, y)
      {
        assert y in t.lists[p] <==> Listed(threads, home, p, y);
      }
    }
  }

  lemma QueueRemove(t: Table, threads: Threads, home: nat, x: Tid, th: Thread)
    requires QueueOk(t, threads, home) && x in threads && threads[x].stat == Ready && threads[x].home == home
    requires MasksOk(|t.lists|, threads[x]) && (th.stat != Ready || th.home != home)
    ensures QueueOk(Remove(t, threads[x].prio, threads[x].masks, x), threads[x := th], home)
  {
    var was := threads[x];
    var t', threads' := Remove(t, was.prio, was.masks, x), threads[x := th];
    RemoveAgrees(t, was.prio, x);
    hide Agrees, ClearBit;
    forall p: nat | p < |t'.lists|
      ensures ListOk(t', threads', home, p)
    {
      assert ListOk(t, threads, home, p);
      WithoutMembers(t.lists[p], x);
      forall y
        ensures y in t'.lists[p] <==> Listed(threads', home, p, y)
      {
        assert y in t.lists[p] <==> Listed(threads, home, p, y);
      }
    }
  }

  /** `x` is not in list `p` any more, nothing else has left or entered a list, and the bitmap still agrees. */
  ghost predicate TakenOut(t: Table, t': Table, p: nat, m: Masks, x: Tid)
    requires p < |t.lists|
  {
    && |t'.lists| == |t.lists|
    && (forall q :: 0 <= q < |t.lists| && q != p ==> t'.lists[q] == t.lists[q])
    && (Distinct(t.lists[p]) ==> Distinct(t'.lists[p]) && forall y :: y in t'.lists[p] <==> y in t.lists[p] && y != x)
    && (Agrees(t) && m == MasksFor(|t.lists|, p) ==> Agrees(t'))
  }

  lemma RemoveTakesOut(t: Table, p: nat, m: Masks, x: Tid)
    requires p < |t.lists|
    ensures TakenOut(t, Remove(t, p, m, x), p, m, x)
  {
    if Agrees(t) && m == MasksFor(|t.lists|, p) {
      RemoveAgrees(t, p, x);
    }
    hide Agrees, MasksFor;
    if Distinct(t.lists[p]) {
      WithoutMembers(t.lists[p], x);
    }
  }

  /** Removing a thread that is not queued changes no list. */
  lemma QueueRemoveNothing(t: Table, threads: Threads, home: nat, x: Tid, p: nat)
    requires QueueOk(t, threads, home) && p < |t.lists| && !Listed(threads, home, p, x)
    ensures QueueOk(Remove(t, p, MasksFor(|t.lists|, p), x), threads, home)
    ensures Remove(t, p, MasksFor(|t.lists|, p), x).lists == t.lists
  {
    var t' := Remove(t, p, MasksFor(|t.lists|, p), x);
    RemoveAgrees(t, p, x);
    assert ListOk(t, threads, home, p);
    WithoutMembers(t.lists[p], x);
    hide Agrees, ClearBit;
    forall q: nat | q < |t'.lists|
      ensures ListOk(t', threads, home, q)
    {
      assert ListOk(t, threads, home, q);
    }
  }

  /** A queued thread is ready, at home, and at the priority of its list. */
  lemma Queued(t: Table, threads: Threads, home: nat, p: nat, x: Tid)
    requires QueueOk(t, threads, home) && p < |t.lists| && x in t.lists[p]
    ensures x in threads && threads[x].stat == Ready && threads[x].prio == p && threads[x].home == home
  {
    assert ListOk(t, threads, home, p);
    assert Listed(threads, home, p, x);
  }

  /** A ready thread of the home is queued, and no more urgent than what the bitmap finds. */
  lemma ReadyIsQueued(t: Table, threads: Threads, home: nat, x: Tid)
    requires QueueOk(t, threads, home) && x in threads && threads[x].stat == Ready && threads[x].home == home
    requires threads[x].prio < |t.lists|
    ensures x in t.lists[threads[x].prio]
    ensures FirstReady(t.lists).Some? && FirstReady(t.lists).value <= threads[x].prio
  {
    assert ListOk(t, threads, home, threads[x].prio);
    assert Listed(threads, home, threads[x].prio, x);
    var f := FirstReady(t.lists);
    assert t.lists[threads[x].prio] != [];
  }
}
