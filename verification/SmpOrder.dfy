/**
 Who runs after whom on a core of several: the order that the queues of `SmpScheduler` keep, each core's own and the
 global one, which is the queue with number `|current|`.
 */
module SmpOrder {
  import opened Wrappers
  import opened Sequences
  import opened ReadyTable
  import opened Placement
  import opened SmpScheduler
  import UpOrder

  type ListsOf = seq<seq<seq<Tid>>>

  /** The list of the most urgent threads a core may take: of equals its own, else the more urgent of both queues. */
  lemma BestIs(global: Option<nat>, local: Option<nat>, n: nat, c: nat)
    ensures Best(global, local, n, c) == None <==> global == None && local == None
    ensures local.Some? && (global.None? || local.value <= global.value) ==> Best(global, local, n, c) == Some((c, local.value))
    ensures global.Some? && (local.None? || global.value < local.value) ==> Best(global, local, n, c) == Some((n, global.value))
  {
  }

  /** Core `c` runs `x`, and would take the first of list `h` of queue `home`. */
  ghost predicate MaySwitch(s: State, c: nat, x: Tid, home: nat, h: nat) {
    && c < |s.current| && |s.lists| == |s.current| + 1
    && s.current[c] == Some(x) && x in s.threads && s.threads[x].stat == Running
    && s.threads[x].home < |s.lists| && s.threads[x].prio < |s.lists[s.threads[x].home]|
    && Best(FirstReady(s.lists[|s.current|]), FirstReady(s.lists[c]), |s.current|, c) == Some((home, h))
  }

  /** `x` may go on on core `c`: it is bound to no core or to this one. */
  ghost predicate AtHome(s: State, c: nat, x: Tid) {
    x in s.threads && (s.threads[x].home == |s.current| || s.threads[x].home == c)
  }

  /** The list `p` of queue `home`, if there is one. */
  function ListAt(lists: ListsOf, home: nat, p: nat): seq<Tid> {
    if home < |lists| && p < |lists[home]| then lists[home][p] else []
  }

  lemma BestIsThere(s: State, c: nat, x: Tid, home: nat, h: nat)
    requires MaySwitch(s, c, x, home, h)
    ensures (home == c || home == |s.current|) && home < |s.lists| && h < |s.lists[home]| && s.lists[home][h] != []
    ensures FirstReady(s.lists[home]) == Some(h)
  {
  }

  /** A running thread that does not yield stays unless somebody is strictly more urgent. */
  lemma StaysAmongEquals(s: State, c: nat, x: Tid, home: nat, h: nat)
    requires MaySwitch(s, c, x, home, h) && AtHome(s, c, x)
    requires s.threads[x].prio < h || (s.threads[x].prio == h && !s.threads[x].yielding)
    ensures Switched(s, c).current == s.current && Switched(s, c).lists == s.lists
  {
    BestIsThere(s, c, x, home, h);
  }

  /** What a switch away from `x` does to every list. */
  ghost predicate ListsChanged(s: State, lists': ListsOf, x: Tid, home: nat, h: nat, atEnd: bool)
    requires x in s.threads && ListAt(s.lists, home, h) != []
  {
    var b, p := s.threads[x].home, s.threads[x].prio;
    forall q, r {:trigger ListAt(lists', q, r)} ::
      var was := if q == home && r == h then ListAt(s.lists, home, h)[1..] else ListAt(s.lists, q, r);
      ListAt(lists', q, r) == if q == b && r == p then (if atEnd then was + [x] else [x] + was) else was
  }

  lemma SwitchLists(s: State, c: nat, x: Tid, home: nat, h: nat)
    requires MaySwitch(s, c, x, home, h) && !Keeps(s.threads[x], |s.current|, c, h)
    requires s.threads[x].home == home && s.threads[x].prio == h ==> s.threads[x].yielding
    ensures ListAt(s.lists, home, h) != [] && Switched(s, c).current[c] == Some(ListAt(s.lists, home, h)[0])
    ensures ListsChanged(s, Switched(s, c).lists, x, home, h, s.threads[x].yielding)
  {
    BestIsThere(s, c, x, home, h);
    var xs := s.lists[home][h];
    hide FirstReady, Best;
    WithoutFirst(xs, x);
    var s' := Switched(s, c);
    forall q, r
      ensures var was := if q == home && r == h then xs[1..] else ListAt(s.lists, q, r);
        ListAt(s'.lists, q, r) ==
          if q == s.threads[x].home && r == s.threads[x].prio then (if s.threads[x].yielding then was + [x] else [x] + was) else was
    {
    }
  }

  lemma WithoutFirst(xs: seq<Tid>, x: Tid)
    requires xs != []
    ensures Without(xs, xs[0]) == xs[1..] && Without(xs + [x], xs[0]) == xs[1..] + [x]
  {
    assert (xs + [x])[0] == xs[0] && (xs + [x])[1..] == xs[1..] + [x];
  }

  /**
   A thread that yields goes behind its equals in the queue of its home, and the first
   of the chosen list runs; all other lists stay as they are.
   */
  lemma YieldingIsLast(s: State, c: nat, x: Tid, home: nat, h: nat)
    requires MaySwitch(s, c, x, home, h) && AtHome(s, c, x) && s.threads[x].yielding && h <= s.threads[x].prio
    ensures ListAt(s.lists, home, h) != [] && Switched(s, c).current[c] == Some(ListAt(s.lists, home, h)[0])
    ensures ListsChanged(s, Switched(s, c).lists, x, home, h, true)
  {
    SwitchLists(s, c, x, home, h);
  }

  /** A thread that is preempted, or may not stay on the core, is in front of its equals in the queue of its home. */
  lemma PreemptedIsFirst(s: State, c: nat, x: Tid, home: nat, h: nat)
    requires MaySwitch(s, c, x, home, h) && !s.threads[x].yielding && (h < s.threads[x].prio || !AtHome(s, c, x))
    ensures ListAt(s.lists, home, h) != [] && Switched(s, c).current[c] == Some(ListAt(s.lists, home, h)[0])
    ensures ListsChanged(s, Switched(s, c).lists, x, home, h, false)
  {
    BestIsThere(s, c, x, home, h);
    SwitchLists(s, c, x, home, h);
  }

  /** A thread that does not run any more, because it is suspended, enters no queue. */
  lemma SuspendedLeaves(s: State, c: nat, x: Tid, home: nat, h: nat)
    requires c < |s.current| && |s.lists| == |s.current| + 1 && s.current[c] == Some(x) && x in s.threads && s.threads[x].stat != Running
    requires Best(FirstReady(s.lists[|s.current|]), FirstReady(s.lists[c]), |s.current|, c) == Some((home, h))
    ensures home < |s.lists| && h < |s.lists[home]| && s.lists[home][h] != []
    ensures Switched(s, c).current[c] == Some(s.lists[home][h][0])
    ensures Switched(s, c).lists == s.lists[home := s.lists[home][h := s.lists[home][h][1..]]]
  {
  }

  /** A switch changes the threads it is between, the one to ready without its yield flag, the other to running here. */
  lemma SwitchThreads(s: State, c: nat, x: Tid, home: nat, h: nat)
    requires MaySwitch(s, c, x, home, h) && ListAt(s.lists, home, h) != []
    requires h < s.threads[x].prio || (h == s.threads[x].prio && s.threads[x].yielding) || !AtHome(s, c, x)
    requires ListAt(s.lists, home, h)[0] in s.threads && ListAt(s.lists, home, h)[0] != x
    ensures var to := ListAt(s.lists, home, h)[0];
      Switched(s, c).threads == s.threads[x := s.threads[x].(stat := Ready, oncpu := None, yielding := false)]
                                         [to := s.threads[to].(stat := Running, oncpu := Some(c))]
  {
    BestIsThere(s, c, x, home, h);
    hide FirstReady, Best, Entered, Departed;
  }

  // ----- a round

  /** Among the queues that core `c` looks at, list `h` of `home` is the most urgent, or would be if it were not empty. */
  ghost predicate Leads(lists: ListsOf, n: nat, c: nat, home: nat, h: nat) {
    && c < n && |lists| == n + 1 && (home == c || home == n)
    && h < |lists[home]| && (forall p :: 0 <= p < h ==> lists[home][p] == [])
    && (home == n ==> forall p :: 0 <= p <= h && p < |lists[c]| ==> lists[c][p] == [])
    && (home == c ==> forall p :: 0 <= p < h && p < |lists[n]| ==> lists[n][p] == [])
  }

  /** The threads `q`, the first of them running on core `c`, share a home and are the most urgent the core may run. */
  ghost predicate Circle(s: State, c: nat, home: nat, h: nat, q: seq<Tid>) {
    && q != [] && Distinct(q) && Leads(s.lists, |s.current|, c, home, h)
    && s.current[c] == Some(q[0]) && s.lists[home][h] == q[1..]
    && (forall x :: x in q ==> x in s.threads && s.threads[x].prio == h && s.threads[x].home == home)
    && s.threads[q[0]].stat == Running
  }

  /** The thread on core `c` yields. */
  function YieldNow(s: State, c: nat): State {
    if c >= |s.current| || |s.lists| != |s.current| + 1 || s.current[c].None? || s.current[c].value !in s.threads then s
    else
      var x := s.current[c].value;
      Switched(s.(threads := s.threads[x := s.threads[x].(yielding := true)]), c)
  }

  function Turns(s: State, c: nat, k: nat): State {
    if k == 0 then s else YieldNow(Turns(s, c, k - 1), c)
  }

  lemma {:induction false} FirstNotBefore(lists: seq<seq<Tid>>, h: nat)
    requires forall p :: 0 <= p < h && p < |lists| ==> lists[p] == []
    ensures FirstReady(lists).Some? ==> FirstReady(lists).value >= h
  {
    if lists != [] && h > 0 {
      FirstNotBefore(lists[1..], h - 1);
    }
  }

  lemma LeaderIsBest(lists: ListsOf, n: nat, c: nat, home: nat, h: nat)
    requires Leads(lists, n, c, home, h) && lists[home][h] != []
    ensures Best(FirstReady(lists[n]), FirstReady(lists[c]), n, c) == Some((home, h))
  {
    UpOrder.FirstIs(lists[home], h);
    if home == n {
      FirstNotBefore(lists[c], h + 1);
    } else {
      FirstNotBefore(lists[n], h);
    }
  }

  lemma UpdatedTwice(lists: ListsOf, home: nat, h: nat, a: seq<Tid>, b: seq<Tid>)
    requires home < |lists| && h < |lists[home]|
    ensures var once := lists[home := lists[home][h := a]];
      once[home][h] == a && once[home := once[home][h := b]] == lists[home := lists[home][h := b]]
  {
    assert lists[home][h := a][h := b] == lists[home][h := b];
  }

  lemma NextTurn(s: State, c: nat, home: nat, h: nat, q: seq<Tid>)
    requires Circle(s, c, home, h, q) && |q| > 1
    ensures Circle(YieldNow(s, c), c, home, h, q[1..] + [q[0]])
  {
    var x, r := q[0], q[1..] + [q[0]];
    var s1 := s.(threads := s.threads[x := s.threads[x].(yielding := true)]);
    LeaderIsBest(s.lists, |s.current|, c, home, h);
    UpOrder.RotatedDistinct(q);
    assert r[0] == q[1] && r[1..] == q[1..][1..] + [x];
    WithoutFirst(q[1..], x);
    hide FirstReady, Best, Distinct, Without;
    var s' := Switched(s1, c);
    var entered := Entered(s.lists, home, h, x, true);
    assert entered == s.lists[home := s.lists[home][h := q[1..] + [x]]];
    assert q[1..][0] == q[1] && Without(q[1..] + [x], q[1]) == r[1..];
    assert s'.lists == Departed(entered, home, h, q[1]);
    UpdatedTwice(s.lists, home, h, q[1..] + [x], r[1..]);
    assert s'.lists == s.lists[home := s.lists[home][h := r[1..]]];
    assert s'.current == s.current[c := Some(q[1])];
    assert forall y :: y in r ==> y in q;
  }

  lemma OneTurnMore(s: State, c: nat, home: nat, h: nat, q: seq<Tid>, k: nat)
    requires k < |q| && |q| > 1 && Circle(Turns(s, c, k), c, home, h, UpOrder.Rotated(q, k))
    ensures Circle(Turns(s, c, k + 1), c, home, h, UpOrder.Rotated(q, k + 1))
  {
    UpOrder.RotatedHead(q, k);
    UpOrder.RotateMore(q, k);
    hide Circle, YieldNow, UpOrder.Rotated;
    NextTurn(Turns(s, c, k), c, home, h, UpOrder.Rotated(q, k));
  }

  lemma NoTurn(s: State, c: nat, q: seq<Tid>)
    ensures Turns(s, c, 0) == s && UpOrder.Rotated(q, 0) == q
  {
  }

  lemma {:induction false} CircleTurns(s: State, c: nat, home: nat, h: nat, q: seq<Tid>, k: nat)
    requires Circle(s, c, home, h, q) && |q| > 1 && k <= |q|
    ensures Circle(Turns(s, c, k), c, home, h, UpOrder.Rotated(q, k))
  {
    hide *;
    if k == 0 {
      NoTurn(s, c, q);
    } else {
      CircleTurns(s, c, home, h, q, k - 1);
      OneTurnMore(s, c, home, h, q, k - 1);
    }
  }

  /** Threads of equal urgency in one queue that yield in turn run in the order of their list, each once in a round. */
  lemma RoundOfEquals(s: State, c: nat, home: nat, h: nat, q: seq<Tid>, k: nat)
    requires Circle(s, c, home, h, q) && |q| > 1 && k <= |q|
    ensures c < |Turns(s, c, k).current| && Turns(s, c, k).current[c] == Some(if k < |q| then q[k] else q[0])
  {
    CircleTurns(s, c, home, h, q, k);
    UpOrder.RotatedHead(q, k);
    hide Turns, UpOrder.Rotated;
  }
}
