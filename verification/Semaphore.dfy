/**
 The semaphore of `src/ipc.c` with the thread timers that bound its waits (`src/scheduler_comm.c`,
 `src/thread.c`). The expiry of a timer and its timeout function are one step.
 */
module Semaphore {
  import opened Wrappers
  import opened Sequences

  type Tid = nat

  const ERROR: int := 1
  const ETIMEOUT: int := 2
  const EFULL: int := 3
  const EINTR: int := 9
  const EINVAL: int := 10

  /** RT_SEM_VALUE_MAX. */
  const VALUE_MAX: nat := 0xFFFF

  /** `timerSet` is `sched_flag_ttmr_set`; `timerActive` is the flag of the thread's timer. */
  datatype Sleeper = Sleeper(suspended: bool, timerSet: bool, timerActive: bool, error: int)

  type Sleepers = map<Tid, Sleeper>

  ghost predicate SleeperOk(threads: Sleepers, waiters: seq<Tid>, t: Tid) {
    && t in threads
    && (threads[t].suspended <==> t in waiters)
    && (threads[t].timerActive ==> threads[t].suspended && threads[t].timerSet)
    && (threads[t].suspended && threads[t].timerSet ==> threads[t].timerActive)
    && (threads[t].suspended ==> threads[t].error == EINTR)
  }

  /**
   A suspended thread whose timer flag is set has an active timer, and only suspended threads have one; until somebody
   says otherwise its take is to end interrupted.
   */
  ghost predicate SleepersOk(threads: Sleepers, waiters: seq<Tid>) {
    && Distinct(waiters)
    && (forall t :: t in waiters ==> t in threads)
    && forall t {:trigger SleeperOk(threads, waiters, t)} :: t in threads ==> SleeperOk(threads, waiters, t)
  }

  /** A thread comes off the list, awake and without a running timer. */
  lemma WakeKeeps(threads: Sleepers, waiters: seq<Tid>, t: Tid, s: Sleeper)
    requires SleepersOk(threads, waiters) && t in threads && !s.suspended && !s.timerActive
    ensures SleepersOk(threads[t := s], Without(waiters, t))
  {
    WithoutMembers(waiters, t);
    var threads', waiters' := threads[t := s], Without(waiters, t);
    forall u | u in threads'
      ensures SleeperOk(threads', waiters', u)
    {
      assert SleeperOk(threads, waiters, u);
    }
  }

  lemma SleepKeeps(threads: Sleepers, waiters: seq<Tid>, t: Tid, s: Sleeper, k: nat)
    requires SleepersOk(threads, waiters) && t in threads && t !in waiters && k <= |waiters|
    requires s.suspended && s.timerSet == s.timerActive && s.error == EINTR
    ensures SleepersOk(threads[t := s], InsertAt(waiters, k, t))
  {
    var threads', waiters' := threads[t := s], InsertAt(waiters, k, t);
    assert waiters == waiters[..k] + waiters[k..];
    forall i, j | 0 <= i < j < |waiters'|
      ensures waiters'[i] != waiters'[j]
    {
      assert i != k ==> waiters'[i] == waiters[if i < k then i else i - 1];
      assert j != k ==> waiters'[j] == waiters[if j < k then j else j - 1];
    }
    forall u | u in threads'
      ensures SleeperOk(threads', waiters', u)
    {
      assert SleeperOk(threads, waiters, u);
    }
  }

  /** A change of a thread that is awake. */
  lemma AwakeKeeps(threads: Sleepers, waiters: seq<Tid>, t: Tid, s: Sleeper)
    requires SleepersOk(threads, waiters) && t !in waiters && !s.suspended && !s.timerActive
    ensures SleepersOk(threads[t := s], waiters)
  {
    var threads' := threads[t := s];
    forall u | u in threads'
      ensures SleeperOk(threads', waiters, u)
    {
      assert u in threads ==> SleeperOk(threads, waiters, u);
    }
  }

  /** The threads `ts` have been woken with an error. */
  ghost predicate WokenAll(had: Sleepers, threads: Sleepers, ts: seq<Tid>) {
    && threads.Keys == had.Keys
    && forall t :: t in had ==> threads[t] == if t in ts then Sleeper(false, false, false, ERROR) else had[t]
  }

  lemma WokenNext(had: Sleepers, threads: Sleepers, all: seq<Tid>, i: nat)
    requires i < |all| && WokenAll(had, threads, all[..i]) && all[i] in threads
    ensures WokenAll(had, threads[all[i] := Sleeper(false, false, false, ERROR)], all[..i + 1])
  {
    assert all[..i + 1] == all[..i] + [all[i]];
  }

  class Sem {
    var value: nat
    var max: nat
    var waiters: seq<Tid>
    var threads: Sleepers
    /** The history: the value to start from, and the releases and takes that have succeeded since. */
    ghost var base: nat
    ghost var released: nat
    ghost var taken: nat

    ghost predicate Valid()
      reads this
    {
      && SleepersOk(threads, waiters)
      && (value > 0 ==> waiters == [])
      && base + released == value + taken
      && value <= VALUE_MAX && max <= VALUE_MAX
    }

    /** `rt_sem_init`. */
    constructor (value: nat, ids: set<Tid>)
      requires value <= VALUE_MAX
      ensures Valid() && this.value == base == value && max == VALUE_MAX && released == taken == 0 && waiters == []
      ensures threads.Keys == ids
    {
      this.value, base, max := value, value, VALUE_MAX;
      released, taken := 0, 0;
      waiters := [];
      threads := map t | t in ids :: Sleeper(false, false, false, 0);
    }

    /** `rt_sched_thread_timer_stop`; stopping a timer that does not run is an error. */
    method TimerStop(t: Tid) returns (error: int)
      requires t in threads
      modifies this`threads
      ensures error == if old(threads)[t].timerSet && !old(threads)[t].timerActive then -ERROR else 0
      ensures threads == if old(threads)[t].timerSet then old(threads)[t := old(threads)[t].(timerSet := false, timerActive := false)] else old(threads)
    {
      error := 0;
      if threads[t].timerSet {
        if threads[t].timerActive {
          threads := threads[t := threads[t].(timerActive := false)];
        } else {
          error := -ERROR;
        }
        threads := threads[t := threads[t].(timerSet := false)];
        assert threads == old(threads)[t := old(threads)[t].(timerSet := false, timerActive := false)];
      }
    }

    /** `rt_sched_thread_ready`: of a suspended thread it never fails. */
    method MakeReady(t: Tid) returns (error: int)
      requires SleepersOk(threads, waiters) && t in threads
      modifies this`threads, this`waiters
      ensures SleepersOk(threads, waiters)
      ensures error == if t in old(waiters) then 0 else -EINVAL
      ensures error != 0 ==> threads == old(threads) && waiters == old(waiters)
      ensures error == 0 ==> waiters == Without(old(waiters), t) && t !in waiters
      ensures error == 0 ==> threads == old(threads)[t := Sleeper(false, false, false, old(threads)[t].error)]
    {
      assert SleeperOk(threads, waiters, t);
      WakeKeeps(threads, waiters, t, Sleeper(false, false, false, threads[t].error));
      WithoutMembers(waiters, t);
      hide SleepersOk;
      if !threads[t].suspended {
        error := -EINVAL;
      } else {
        if threads[t].timerSet {
          error := TimerStop(t);
        } else {
          error := 0;
        }
        if error == 0 {
          waiters := Without(waiters, t);
          threads := threads[t := threads[t].(suspended := false)];
        }
        assert threads == old(threads)[t := Sleeper(false, false, false, old(threads)[t].error)];
      }
    }

    /** `rt_susp_list_dequeue`. */
    method Dequeue(error: int) returns (woken: Option<Tid>)
      requires SleepersOk(threads, waiters)
      modifies this`threads, this`waiters
      ensures SleepersOk(threads, waiters)
      ensures woken == if old(waiters) == [] then None else Some(old(waiters)[0])
      ensures waiters == if old(waiters) == [] then [] else old(waiters)[1..]
      ensures threads == if old(waiters) == [] then old(threads)
                         else old(threads)[old(waiters)[0] := Sleeper(false, false, false, if error >= 0 then error else old(threads)[old(waiters)[0]].error)]
    {
      woken := None;
      if waiters != [] {
        var t := waiters[0];
        var e := MakeReady(t);
        if e == 0 {
          woken := Some(t);
          if error >= 0 {
            AwakeKeeps(threads, waiters, t, threads[t].(error := error));
            threads := threads[t := threads[t].(error := error)];
          }
        }
        assert threads == old(threads)[t := threads[t]];
      }
    }

    /** `_rt_sem_take`, to its return or to the thread's suspension; `pos` is where the thread goes in the list. */
    method Take(t: Tid, timeout: int, pos: nat) returns (code: Option<int>)
      requires Valid() && t in threads && t !in waiters
      modifies this`value, this`waiters, this`threads, this`taken
      ensures Valid()
      ensures code == if old(value) > 0 then Some(0) else if timeout == 0 then Some(-ETIMEOUT) else None
      ensures value == (if old(value) > 0 then old(value) - 1 else 0)
      ensures taken == old(taken) + if code == Some(0) then 1 else 0
      ensures code != None ==> waiters == old(waiters) && threads == old(threads)
      ensures code == None ==>
        && waiters == InsertAt(old(waiters), if pos <= |old(waiters)| then pos else |old(waiters)|, t)
        && threads == old(threads)[t := Sleeper(true, timeout > 0, timeout > 0, EINTR)]
    {
      assert SleeperOk(threads, waiters, t);
      if value > 0 {
        value := value - 1;
        taken := taken + 1;
        code := Some(0);
      } else if timeout == 0 {
        code := Some(-ETIMEOUT);
      } else {
        var k := if pos <= |waiters| then pos else |waiters|;
        SleepKeeps(threads, waiters, t, Sleeper(true, timeout > 0, timeout > 0, EINTR), k);
        hide SleepersOk;
        threads := threads[t := threads[t].(error := EINTR)];
        threads := threads[t := threads[t].(suspended := true)];
        waiters := InsertAt(waiters, k, t);
        var ignored := TimerStop(t);
        if timeout > 0 {
          threads := threads[t := threads[t].(timerSet := true, timerActive := true)];
        }
        assert threads == old(threads)[t := Sleeper(true, timeout > 0, timeout > 0, EINTR)];
        code := None;
      }
    }

    /** The end of a take whose thread has been woken. */
    function Outcome(t: Tid): int
      reads this
      requires t in threads
    {
      if threads[t].error > 0 then -threads[t].error else threads[t].error
    }

    /** `rt_sem_release`. */
    method Release() returns (code: int, woken: Option<Tid>)
      requires Valid()
      modifies this`value, this`waiters, this`threads, this`released, this`taken
      ensures Valid()
      ensures code == if old(waiters) == [] && old(value) >= max then -EFULL else 0
      ensures released == old(released) + (if code == 0 then 1 else 0)
      ensures woken == if old(waiters) == [] then None else Some(old(waiters)[0])
      ensures waiters == if old(waiters) == [] then [] else old(waiters)[1..]
      ensures woken.None? ==> threads == old(threads) && value == old(value) + (if code == 0 then 1 else 0) && taken == old(taken)
      ensures woken.Some? ==> value == old(value) && taken == old(taken) + 1
                              && threads == old(threads)[woken.value := Sleeper(false, false, false, 0)] && Outcome(woken.value) == 0
    {
      if waiters != [] {
        woken := Dequeue(0);
        released, taken := released + 1, taken + 1;
        code := 0;
      } else {
        woken := None;
        if value < max {
          value := value + 1;
          released := released + 1;
          code := 0;
        } else {
          code := -EFULL;
        }
      }
    }

    /** The thread's timer expires: it is stopped, and `_thread_timeout` readies the thread, which is suspended. */
    method Expire(t: Tid)
      requires Valid() && t in threads && threads[t].timerActive
      modifies this`waiters, this`threads
      ensures Valid() && t in old(waiters) && waiters == Without(old(waiters), t) && t in threads && Outcome(t) == -ETIMEOUT
      ensures threads == old(threads)[t := old(threads)[t].(suspended := false, timerActive := false, error := -ETIMEOUT)]
    {
      assert SleeperOk(threads, waiters, t);
      WakeKeeps(threads, waiters, t, threads[t].(suspended := false, timerActive := false, error := -ETIMEOUT));
      hide SleepersOk;
      threads := threads[t := threads[t].(timerActive := false)];
      assert threads[t].suspended;
      threads := threads[t := threads[t].(error := -ETIMEOUT)];
      waiters := Without(waiters, t);
      threads := threads[t := threads[t].(suspended := false)];
      assert threads == old(threads)[t := old(threads)[t].(suspended := false, timerActive := false, error := -ETIMEOUT)];
    }

    /** `rt_thread_resume` from outside, by a signal say: the take ends interrupted. */
    method Resume(t: Tid) returns (error: int)
      requires Valid() && t in threads
      modifies this`waiters, this`threads
      ensures Valid() && error == (if t in old(waiters) then 0 else -EINVAL)
      ensures error == 0 ==> waiters == Without(old(waiters), t) && threads == old(threads)[t := Sleeper(false, false, false, old(threads)[t].error)]
      ensures error != 0 ==> waiters == old(waiters) && threads == old(threads)
      ensures error == 0 ==> t in threads && Outcome(t) == -EINTR
    {
      assert SleeperOk(threads, waiters, t);
      error := MakeReady(t);
    }

    /** `RT_IPC_CMD_RESET` of `rt_sem_control`: everybody leaves with an error, and counting starts anew. */
    method Reset(v: nat)
      requires Valid()
      modifies this
      ensures Valid() && value == v % (VALUE_MAX + 1) && waiters == [] && base == value && released == taken == 0 && max == old(max)
      ensures WokenAll(old(threads), threads, old(waiters))
      ensures forall t :: t in old(waiters) ==> t in threads && Outcome(t) == -ERROR
    {
      ghost var had, all, limit := threads, waiters, max;
      var woken := Dequeue(ERROR);
      ghost var i: nat := if all == [] then 0 else 1;
      assert all[..0] == [] && (all != [] ==> all[..1] == [all[0]]);
      while woken != None
        invariant SleepersOk(threads, waiters) && i <= |all| && waiters == all[i..] && max == limit
        invariant woken == None ==> waiters == []
        invariant WokenAll(had, threads, all[..i])
        decreases |waiters|, if woken == None then 0 else 1
      {
        if i < |all| { assert waiters[0] == all[i]; WokenNext(had, threads, all, i); }
        woken := Dequeue(ERROR);
        i := if i < |all| then i + 1 else i;
      }
      assert all[..i] == all;
      value := v % (VALUE_MAX + 1);
      base, released, taken := value, 0, 0;
    }
  }
}
