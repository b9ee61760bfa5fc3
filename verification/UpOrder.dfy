/** Who runs after whom on a single core: the order that the ready lists of `UpScheduler` keep. */
module UpOrder {
  import opened Wrappers
  import opened Sequences
  import opened ReadyTable
  import opened Placement
  import opened UpScheduler

  /** The running thread of a scheduler that may switch, and the most urgent ready priority. */
  ghost predicate MaySwitch(s: State, x: Tid, h: nat) {
    && s.lockNest == 0 && s.current == Some(x) && x in s.threads && s.threads[x].stat == Running
    && FirstReady(s.lists) == Some(h)
  }

  /** A running thread that does not yield stays unless somebody is strictly more urgent. */
  lemma StaysAmongEquals(s: State, x: Tid, h: nat)
    requires MaySwitch(s, x, h) && (s.threads[x].prio < h || (s.threads[x].prio == h && !s.threads[x].yielding))
    ensures Scheduled(s) == s
  {
  }

  /**
   A thread that is preempted goes in front of its equals, so that it is the next of them to run, and the first of the
   most urgent threads runs; all other lists stay as they are.
   */
  lemma PreemptedIsFirst(s: State, x: Tid, h: nat)
    requires MaySwitch(s, x, h) && h < s.threads[x].prio < |s.lists| && !s.threads[x].yielding
    ensures var s', p := Scheduled(s), s.threads[x].prio;
      && s'.current == Some(s.lists[h][0])
      && s'.lists == s.lists[h := s.lists[h][1..]][p := [x] + s.lists[p]]
  {
  }

  /** A thread that yields goes behind its equals, whoever runs. */
  lemma YieldingIsLast(s: State, x: Tid, h: nat)
    requires MaySwitch(s, x, h) && h <= s.threads[x].prio < |s.lists| && s.threads[x].yielding
    ensures var s', p := Scheduled(s), s.threads[x].prio;
      && s'.current == Some(s.lists[h][0])
      && s'.lists == if p == h then s.lists[h := s.lists[h][1..] + [x]] else s.lists[h := s.lists[h][1..]][p := s.lists[p] + [x]]
  {
    var xs := s.lists[h];
    var ys := xs + [x];
    assert ys[0] == xs[0] && ys[1..] == xs[1..] + [x];
    assert Without(xs, xs[0]) == xs[1..];
  }

  /** A thread that does not run any more, because it is suspended or closed, enters no list. */
  lemma SuspendedLeaves(s: State, x: Tid, h: nat)
    requires s.lockNest == 0 && s.current == Some(x) && x in s.threads && s.threads[x].stat != Running && FirstReady(s.lists) == Some(h)
    ensures Scheduled(s).current == Some(s.lists[h][0]) && Scheduled(s).lists == s.lists[h := s.lists[h][1..]]
  {
  }

  /** A switch changes the threads it is between, the one to ready without its yield flag, the other to running. */
  lemma SwitchThreads(s: State, x: Tid, h: nat)
    requires MaySwitch(s, x, h) && (h < s.threads[x].prio || (h == s.threads[x].prio && s.threads[x].yielding))
    requires s.lists[h][0] in s.threads && s.lists[h][0] != x
    ensures var to := s.lists[h][0];
      Scheduled(s).threads == s.threads[x := s.threads[x].(stat := Ready, yielding := false)][to := s.threads[to].(stat := Running)]
  {
  }

  // ----- a round

  /** The threads `q`, the first of them running, are all that are as urgent as priority `h`, and nobody is more. */
  ghost predicate Circle(s: State, h: nat, q: seq<Tid>) {
    && s.lockNest == 0 && q != [] && Distinct(q) && s.current == Some(q[0])
    && h < |s.lists| && s.lists[h] == q[1..] && (forall p :: 0 <= p < h ==> s.lists[p] == [])
    && (forall x :: x in q ==> x in s.threads && s.threads[x].prio == h)
    && s.threads[q[0]].stat == Running
  }

  /** The running thread yields. */
  function YieldNow(s: State): State {
    if s.current.None? || s.current.value !in s.threads then s
    else
      var x := s.current.value;
      Scheduled(s.(threads := s.threads[x := s.threads[x].(yielding := true)]))
  }

  function Turns(s: State, k: nat): State {
    if k == 0 then s else YieldNow(Turns(s, k - 1))
  }

  function Rotated<T>(q: seq<T>, k: nat): seq<T>
    requires k <= |q|
  {
    q[k..] + q[..k]
  }

  lemma {:induction false} FirstIs(lists: seq<seq<Tid>>, h: nat)
    requires h < |lists| && lists[h] != [] && forall p :: 0 <= p < h ==> lists[p] == []
    ensures FirstReady(lists) == Some(h)
  {
    if h > 0 {
      FirstIs(lists[1..], h - 1);
    }
  }

  lemma NextTurn(s: State, h: nat, q: seq<Tid>)
    requires Circle(s, h, q)
    ensures |q| == 1 ==> YieldNow(s).current == s.current
    ensures |q| > 1 ==> Circle(YieldNow(s), h, q[1..] + [q[0]])
  {
    var x := q[0];
    var s1 := s.(threads := s.threads[x := s.threads[x].(yielding := true)]);
    if |q| > 1 {
      FirstIs(s.lists, h);
      YieldingIsLast(s1, x, h);
      var r := q[1..] + [x];
      RotatedDistinct(q);
      assert r[1..] == q[1..][1..] + [x];
      hide FirstReady, Without;
      var s' := Scheduled(s1);
      assert s'.threads[q[1]].stat == Running;
      assert forall y :: y in r ==> y in q;
    } else {
      assert s.lists[h] == [];
      NoneRunsInstead(s1, x, h);
    }
  }

  lemma NoneRunsInstead(s: State, x: Tid, h: nat)
    requires s.current == Some(x) && x in s.threads && s.threads[x].stat == Running && s.threads[x].prio == h
    requires h < |s.lists| && forall p :: 0 <= p <= h ==> s.lists[p] == []
    ensures Scheduled(s).current == s.current
  {
  }

  lemma RotatedDistinct<T>(q: seq<T>)
    requires q != [] && Distinct(q)
    ensures Distinct(q[1..] + [q[0]])
  {
  }

  lemma RotateMore<T>(q: seq<T>, k: nat)
    requires k < |q|
    ensures Rotated(q, k)[1..] + [Rotated(q, k)[0]] == Rotated(q, k + 1)
  {
  }

  lemma RotatedHead<T>(q: seq<T>, k: nat)
    requires q != [] && k <= |q|
    ensures |Rotated(q, k)| == |q| && Rotated(q, k)[0] == if k < |q| then q[k] else q[0]
  {
  }

  lemma OneTurnMore(s: State, h: nat, q: seq<Tid>, k: nat)
    requires k < |q| && |q| > 1 && Circle(Turns(s, k), h, Rotated(q, k))
    ensures Circle(Turns(s, k + 1), h, Rotated(q, k + 1))
  {
    RotatedHead(q, k);
    RotateMore(q, k);
    hide Circle, YieldNow, Rotated;
    NextTurn(Turns(s, k), h, Rotated(q, k));
  }

  lemma {:induction false} CircleTurns(s: State, h: nat, q: seq<Tid>, k: nat)
    requires Circle(s, h, q) && |q| > 1 && k <= |q|
    ensures Circle(Turns(s, k), h, Rotated(q, k))
  {
    hide *;
    if k == 0 {
      NoTurn(s, q);
    } else {
      CircleTurns(s, h, q, k - 1);
      OneTurnMore(s, h, q, k - 1);
    }
  }

  lemma NoTurn(s: State, q: seq<Tid>)
    ensures Turns(s, 0) == s && Rotated(q, 0) == q
  {
  }

  /** Threads of equal urgency that yield in turn run in the order of their list, each once in a round. */
  lemma RoundOfEquals(s: State, h: nat, q: seq<Tid>, k: nat)
    requires Circle(s, h, q) && |q| > 1 && k <= |q|
    ensures Turns(s, k).current == Some(if k < |q| then q[k] else q[0])
  {
    CircleTurns(s, h, q, k);
    RotatedHead(q, k);
    hide Turns, Rotated;
  }
}
