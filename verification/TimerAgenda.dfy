/**
 What the timers of `src/timer.c` promise, without skip list and without
 wrap-around: a list of running timers in the order of their unbounded deadlines.
 */
module TimerAgenda {
  import opened Sequences
  import opened SkipRows

  /** `RT_TICK_MAX / 2`, and the number of values of `rt_tick_t`. */
  const HALF: nat := 0x7FFF_FFFF
  const TICKS: nat := 0x1_0000_0000

  datatype Setup = Setup(init: nat, periodic: bool)

  /** `now` counts ticks without wrapping; `stamp` and `clock` record the order of starts. */
  datatype Agenda = Agenda(list: seq<Tid>, setups: map<Tid, Setup>, due: map<Tid, nat>,
                           stamp: map<Tid, nat>, clock: nat, now: nat)

  datatype Command =
    | Create(t: Tid, setup: Setup)
    | Detach(t: Tid)
    | Start(t: Tid)
    | Stop(t: Tid)
    | SetTime(t: Tid, init: nat)
    | SetPeriodic(t: Tid, periodic: bool)
    | Tick

  ghost predicate SetupOk(u: Setup) {
    1 <= u.init < HALF
  }

  ghost predicate CommandOk(a: Agenda, c: Command) {
    match c
    case Create(t, u) => t !in a.setups && SetupOk(u)
    case SetTime(t, n) => t in a.setups && 1 <= n < HALF
    case Tick => true
    case _ => c.t in a.setups
  }

  ghost predicate ListedOk(a: Agenda, x: Tid) {
    && x in a.setups && x in a.due && x in a.stamp && a.stamp[x] < a.clock
    && a.now <= a.due[x] < a.now + HALF
  }

  /** A well-formed agenda whose timers may be due. */
  ghost predicate Wf(a: Agenda) {
    && Distinct(a.list)
    && Sorted(a.due, a.stamp, a.list)
    && (forall x {:trigger ListedOk(a, x)} :: x in a.list ==> ListedOk(a, x))
    && (forall x {:trigger a.setups[x]} :: x in a.setups ==> SetupOk(a.setups[x]))
  }

  /** Every running timer is in the future. */
  ghost predicate Settled(a: Agenda) {
    Wf(a) && forall x {:trigger ListedOk(a, x)} :: x in a.list ==> x in a.due && a.now < a.due[x]
  }

  // ----- operations

  function Started(a: Agenda, t: Tid): Agenda {
    if t !in a.setups then a
    else
      var d := a.now + a.setups[t].init;
      a.(list := LinearInsert(a.due, Erase(a.list, t), t, d),
         due := a.due[t := d],
         stamp := a.stamp[t := a.clock],
         clock := a.clock + 1)
  }

  function Unlisted(a: Agenda, t: Tid): Agenda {
    a.(list := Erase(a.list, t))
  }

  /** The timers that are due: the first part of the list. */
  function DueNow(a: Agenda): (ts: seq<Tid>)
    ensures |ts| <= |a.list| && ts == a.list[..|ts|]
  {
    a.list[..LinearScan(a.due, a.list, a.now)]
  }

  /** The timers `ts` have fired in turn: the periodic ones start again. */
  function Restarted(a: Agenda, ts: seq<Tid>): Agenda {
    if ts == [] then a
    else
      var b := Restarted(a, ts[..|ts| - 1]);
      var t := ts[|ts| - 1];
      if t in b.setups && b.setups[t].periodic then Started(b, t) else b
  }

  function Checked(a: Agenda): Agenda {
    Restarted(a.(list := a.list[|DueNow(a)|..]), DueNow(a))
  }

  function Fired(a: Agenda, c: Command): seq<Tid> {
    if c.Tick? then DueNow(a.(now := a.now + 1)) else []
  }

  function Next(a: Agenda, c: Command): Agenda {
    match c
    case Create(t, u) => a.(setups := a.setups[t := u])
    case Detach(t) => Unlisted(a, t).(setups := a.setups - {t})
    case Start(t) => Started(a, t)
    case Stop(t) => Unlisted(a, t)
    case SetTime(t, n) =>
      if t in a.setups then Unlisted(a, t).(setups := a.setups[t := a.setups[t].(init := n)]) else a
    case SetPeriodic(t, p) =>
      if t in a.setups then a.(setups := a.setups[t := a.setups[t].(periodic := p)]) else a
    case Tick => Checked(a.(now := a.now + 1))
  }

  function Run(a: Agenda, cs: seq<Command>): Agenda
    decreases |cs|
  {
    if cs == [] then a else Run(Next(a, cs[0]), cs[1..])
  }

  // ----- every operation keeps the agenda well formed

  lemma SortedFrame(due: map<Tid, nat>, stamp: map<Tid, nat>, due': map<Tid, nat>, stamp': map<Tid, nat>, xs: seq<Tid>)
    requires Sorted(due, stamp, xs)
    requires forall x :: x in xs ==> x in due && x in stamp && x in due' && x in stamp' && due'[x] == due[x] && stamp'[x] == stamp[x]
    ensures Sorted(due', stamp', xs)
  {
    forall i, j | 0 <= i < j < |xs|
      ensures Before(due', stamp', xs[i], xs[j])
    {
      assert Before(due, stamp, xs[i], xs[j]);
    }
  }

  lemma {:induction false} ScanFrame(due: map<Tid, nat>, due': map<Tid, nat>, xs: seq<Tid>, d: nat)
    requires forall x :: x in xs ==> x in due && x in due' && due'[x] == due[x]
    ensures LinearScan(due, xs, d) == LinearScan(due', xs, d)
  {
    if xs != [] {
      ScanFrame(due, due', xs[1..], d);
    }
  }

  lemma UnlistedKeeps(a: Agenda, t: Tid)
    requires Wf(a)
    ensures Wf(Unlisted(a, t)) && t !in Unlisted(a, t).list
    ensures Settled(a) ==> Settled(Unlisted(a, t))
  {
    hide Sorted, Distinct;
    EraseMembers(a.list, t);
    EraseDistinct(a.list, t);
    EraseSorted(a.due, a.stamp, a.list, t);
    forall x | x in Unlisted(a, t).list
      ensures ListedOk(Unlisted(a, t), x) && (Settled(a) ==> a.now < a.due[x])
    {
      assert ListedOk(a, x);
    }
  }

  /** Inserting a timer that is not listed. */
  lemma InsertedKeeps(a: Agenda, t: Tid, d: nat)
    requires Wf(a) && t in a.setups && t !in a.list && a.now <= d < a.now + HALF
    ensures var due', stamp' := a.due[t := d], a.stamp[t := a.clock];
      var list' := LinearInsert(a.due, a.list, t, d);
      Distinct(list') && Sorted(due', stamp', list')
  {
    hide Distinct, LinearInsert;
    var due', stamp' := a.due[t := d], a.stamp[t := a.clock];
    assert forall x :: x in a.list ==> ListedOk(a, x);
    SortedFrame(a.due, a.stamp, due', stamp', a.list);
    InsertSorted(due', stamp', a.list, t);
    InsertDistinct(a.due, a.list, t, d);
    InsertFrame(a.due, due', a.list, t, d);
  }

  lemma InsertFrame(due: map<Tid, nat>, due': map<Tid, nat>, xs: seq<Tid>, t: Tid, d: nat)
    requires forall x :: x in xs ==> x in due && x in due' && due'[x] == due[x]
    ensures LinearInsert(due, xs, t, d) == LinearInsert(due', xs, t, d)
  {
    ScanFrame(due, due', xs, d);
  }

  lemma StartedMembers(a: Agenda, t: Tid)
    requires t in a.setups
    ensures forall x :: x in Started(a, t).list <==> x in a.list || x == t
  {
    hide Erase, LinearInsert;
    EraseMembers(a.list, t);
    InsertMembers(a.due, Erase(a.list, t), t, a.now + a.setups[t].init);
  }

  lemma StartedListed(a: Agenda, t: Tid, x: Tid)
    requires Wf(a) && t in a.setups && x in Started(a, t).list
    ensures ListedOk(Started(a, t), x) && (Settled(a) ==> a.now < Started(a, t).due[x])
  {
    StartedMembers(a, t);
    assert SetupOk(a.setups[t]);
    hide Sorted, Distinct, LinearInsert, Erase;
    assert x != t ==> ListedOk(a, x);
  }

  lemma StartedKeeps(a: Agenda, t: Tid)
    requires Wf(a) && t in a.setups
    ensures Wf(Started(a, t))
    ensures Settled(a) ==> Settled(Started(a, t))
  {
    var b := Started(a, t);
    UnlistedKeeps(a, t);
    assert SetupOk(a.setups[t]);
    InsertedKeeps(Unlisted(a, t), t, a.now + a.setups[t].init);
    hide Sorted, Distinct, LinearInsert, Erase, ListedOk;
    forall x | x in b.list
      ensures ListedOk(b, x) && (Settled(a) ==> a.now < b.due[x])
    {
      StartedListed(a, t, x);
    }
  }

  lemma TailKeeps(a: Agenda, k: nat)
    requires Wf(a) && k <= |a.list|
    ensures Wf(a.(list := a.list[k..]))
    ensures Settled(a) ==> Settled(a.(list := a.list[k..]))
  {
    var b := a.(list := a.list[k..]);
    forall x | x in b.list
      ensures ListedOk(b, x) && (Settled(a) ==> a.now < b.due[x])
    {
      assert x in a.list;
      assert ListedOk(a, x);
    }
  }

  /** What is not due is in the future. */
  lemma RestIsFuture(a: Agenda)
    requires Wf(a)
    ensures Settled(a.(list := a.list[|DueNow(a)|..]))
  {
    var k := LinearScan(a.due, a.list, a.now);
    var b := a.(list := a.list[k..]);
    TailKeeps(a, k);
    assert forall x :: x in a.list ==> ListedOk(a, x);
    SortedTail(a.due, a.stamp, a.list, a.now);
    forall x | x in b.list
      ensures ListedOk(b, x) && a.now < b.due[x]
    {
      assert ListedOk(a, x);
      var i :| 0 <= i < |b.list| && b.list[i] == x;
      assert a.list[k + i] == x;
    }
  }

  lemma DueNowIsDue(a: Agenda, x: Tid)
    requires Wf(a) && x in DueNow(a)
    ensures ListedOk(a, x) && a.due[x] == a.now
  {
    var i :| 0 <= i < |DueNow(a)| && DueNow(a)[i] == x;
    assert a.list[i] == x;
  }

  lemma {:induction false} RestartedKeeps(a: Agenda, ts: seq<Tid>)
    requires Settled(a)
    ensures Settled(Restarted(a, ts)) && Restarted(a, ts).setups == a.setups && Restarted(a, ts).now == a.now
  {
    if ts != [] {
      RestartedKeeps(a, ts[..|ts| - 1]);
      var b := Restarted(a, ts[..|ts| - 1]);
      if ts[|ts| - 1] in b.setups {
        StartedKeeps(b, ts[|ts| - 1]);
      }
    }
  }

  lemma NowMoves(a: Agenda)
    requires Settled(a)
    ensures Wf(a.(now := a.now + 1))
  {
    var b := a.(now := a.now + 1);
    forall x | x in b.list
      ensures ListedOk(b, x)
    {
      assert ListedOk(a, x);
    }
  }

  lemma SetupsChange(a: Agenda, setups: map<Tid, Setup>)
    requires Settled(a) && (forall x :: x in a.list ==> x in setups) && forall x :: x in setups ==> SetupOk(setups[x])
    ensures Settled(a.(setups := setups))
  {
    var b := a.(setups := setups);
    forall x | x in b.list
      ensures ListedOk(b, x) && a.now < b.due[x]
    {
      assert ListedOk(a, x);
    }
  }

  /** After every command, a tick included, the list is in order and every running timer is in the future. */
  lemma NextKeeps(a: Agenda, c: Command)
    requires Settled(a) && CommandOk(a, c)
    ensures Settled(Next(a, c))
  {
    hide Sorted, Distinct, LinearInsert, Erase, Restarted, DueNow;
    assert forall x :: x in a.list ==> ListedOk(a, x);
    match c
    case Create(t, u) => SetupsChange(a, a.setups[t := u]);
    case Detach(t) => UnlistedKeeps(a, t); SetupsChange(Unlisted(a, t), a.setups - {t}) by { EraseMembers(a.list, t); }
    case Start(t) => StartedKeeps(a, t);
    case Stop(t) => UnlistedKeeps(a, t);
    case SetTime(t, n) =>
      UnlistedKeeps(a, t);
      EraseMembers(a.list, t);
      SetupsChange(Unlisted(a, t), a.setups[t := a.setups[t].(init := n)]);
    case SetPeriodic(t, p) =>
      assert SetupOk(a.setups[t]);
      SetupsChange(a, a.setups[t := a.setups[t].(periodic := p)]);
    case Tick =>
      var b := a.(now := a.now + 1);
      NowMoves(a);
      RestIsFuture(b);
      RestartedKeeps(b.(list := b.list[|DueNow(b)|..]), DueNow(b));
  }

  // ----- what a timer that is left alone does

  /** A command that does not name the timer. */
  predicate Spares(c: Command, t: Tid) {
    c.Tick? || c.t != t
  }

  lemma StartedOther(a: Agenda, t: Tid, x: Tid)
    requires x != t
    ensures var b := Started(a, t);
      (x in b.list <==> x in a.list) && (x in b.due <==> x in a.due) && (x in a.due ==> b.due[x] == a.due[x])
  {
    if t in a.setups {
      StartedMembers(a, t);
    }
  }

  lemma StartedSelf(a: Agenda, t: Tid)
    requires t in a.setups
    ensures var b := Started(a, t); t in b.list && t in b.due && b.due[t] == a.now + a.setups[t].init
  {
    StartedMembers(a, t);
  }

  ghost predicate SameEntry(a: Agenda, b: Agenda, x: Tid) {
    (x in b.list <==> x in a.list) && (x in b.due <==> x in a.due) && (x in a.due ==> b.due[x] == a.due[x])
  }

  lemma {:induction false} RestartedOther(a: Agenda, ts: seq<Tid>, x: Tid)
    requires x !in ts
    ensures SameEntry(a, Restarted(a, ts), x)
  {
    if ts != [] {
      var b := Restarted(a, ts[..|ts| - 1]);
      RestartedOther(a, ts[..|ts| - 1], x);
      StartedOther(b, ts[|ts| - 1], x);
    }
  }

  lemma {:induction false} RestartedSelf(a: Agenda, ts: seq<Tid>, x: Tid)
    requires Settled(a) && Distinct(ts) && x in ts && x in a.setups && x !in a.list
    ensures var b := Restarted(a, ts);
      if a.setups[x].periodic then x in b.list && x in b.due && b.due[x] == a.now + a.setups[x].init else x !in b.list
  {
    var us, t := ts[..|ts| - 1], ts[|ts| - 1];
    var b := Restarted(a, us);
    RestartedKeeps(a, us);
    assert ts == us + [t];
    if t == x {
      RestartedOther(a, us, x);
      StartedSelf(b, x);
    } else {
      RestartedSelf(a, us, x);
      StartedOther(b, t, x);
    }
  }

  lemma DueIff(a: Agenda, x: Tid)
    requires Wf(a) && x in a.list
    ensures ListedOk(a, x) && (x in DueNow(a) <==> a.due[x] == a.now)
    ensures x in a.list[|DueNow(a)|..] <==> a.due[x] != a.now
    ensures Distinct(DueNow(a))
  {
    var k := |DueNow(a)|;
    RestIsFuture(a);
    assert ListedOk(a, x);
    if x in DueNow(a) { DueNowIsDue(a, x); }
    assert a.list == a.list[..k] + a.list[k..];
    var b := a.(list := a.list[k..]);
    assert x in b.list ==> ListedOk(b, x);
  }

  /**
   One step of a run, seen by one running timer that the step does not name: it fires exactly when
   the tick reaches its deadline, and then is either gone or running again for its period.
   */
  lemma LeftAlone(a: Agenda, c: Command, t: Tid)
    requires Settled(a) && CommandOk(a, c) && Spares(c, t) && t in a.list
    ensures ListedOk(a, t) && t in Next(a, c).setups && Next(a, c).setups[t] == a.setups[t]
    ensures Distinct(Fired(a, c)) && (t in Fired(a, c) <==> c.Tick? && a.due[t] == a.now + 1)
    ensures var b := Next(a, c);
      if t !in Fired(a, c) then t in b.list && t in b.due && b.due[t] == a.due[t]
      else if a.setups[t].periodic then t in b.list && t in b.due && b.due[t] == a.due[t] + a.setups[t].init
      else t !in b.list
  {
    hide Sorted, LinearInsert, Erase, Restarted, DueNow;
    assert ListedOk(a, t);
    match c
    case Tick =>
      TickSeen(a, t);
    case Create(_, _) =>
    case Start(u) => StartedOther(a, u, t);
    case Detach(u) => EraseMembers(a.list, u);
    case Stop(u) => EraseMembers(a.list, u);
    case SetTime(u, n) => EraseMembers(a.list, u);
    case SetPeriodic(u, p) =>
  }

  lemma TickSeen(a: Agenda, t: Tid)
    requires Settled(a) && t in a.list
    ensures var b, f := Next(a, Tick), Fired(a, Tick);
      && ListedOk(a, t) && b.setups == a.setups
      && Distinct(f) && (t in f <==> a.due[t] == a.now + 1)
      && (t !in f ==> t in b.list && t in b.due && b.due[t] == a.due[t])
      && (t in f && a.setups[t].periodic ==> t in b.list && t in b.due && b.due[t] == a.due[t] + a.setups[t].init)
      && (t in f && !a.setups[t].periodic ==> t !in b.list)
  {
    hide Sorted, Restarted, DueNow;
    assert ListedOk(a, t);
    var c := a.(now := a.now + 1);
    NowMoves(a);
    DueIff(c, t);
    RestIsFuture(c);
    var d := c.(list := c.list[|DueNow(c)|..]);
    RestartedKeeps(d, DueNow(c));
    if t in DueNow(c) {
      RestartedSelf(d, DueNow(c), t);
    } else {
      RestartedOther(d, DueNow(c), t);
    }
  }

  /** The times at which `t` fires in a run. */
  function Firings(a: Agenda, cs: seq<Command>, t: Tid): seq<nat>
    decreases |cs|
  {
    if cs == [] then []
    else (if t in Fired(a, cs[0]) then [a.now + 1] else []) + Firings(Next(a, cs[0]), cs[1..], t)
  }

  /** The times up to `end` at which a timer is due. */
  function Schedule(due: nat, u: Setup, end: nat): seq<nat>
    decreases end - due
  {
    if due > end then []
    else [due] + if u.periodic && u.init > 0 then Schedule(due + u.init, u, end) else []
  }

  ghost predicate RunOk(a: Agenda, cs: seq<Command>)
    decreases |cs|
  {
    cs == [] || (CommandOk(a, cs[0]) && RunOk(Next(a, cs[0]), cs[1..]))
  }

  lemma {:induction false} RunKeeps(a: Agenda, cs: seq<Command>)
    requires Settled(a) && RunOk(a, cs)
    ensures Settled(Run(a, cs)) && a.now <= Run(a, cs).now
    decreases |cs|
  {
    if cs != [] {
      NextKeeps(a, cs[0]);
      NextNow(a, cs[0]);
      RunKeeps(Next(a, cs[0]), cs[1..]);
    }
  }

  lemma NextNow(a: Agenda, c: Command)
    requires Settled(a)
    ensures Next(a, c).now == if c.Tick? then a.now + 1 else a.now
  {
    if c.Tick? {
      var b := a.(now := a.now + 1);
      NowMoves(a);
      RestIsFuture(b);
      RestartedKeeps(b.(list := b.list[|DueNow(b)|..]), DueNow(b));
    }
  }

  /** A timer that is not running does not fire by itself. */
  lemma {:induction false} NeverFires(a: Agenda, cs: seq<Command>, t: Tid)
    requires Settled(a) && RunOk(a, cs) && t !in a.list && forall i :: 0 <= i < |cs| ==> Spares(cs[i], t)
    ensures Firings(a, cs, t) == [] && t !in Run(a, cs).list
    decreases |cs|
  {
    if cs != [] {
      var c, b := cs[0], Next(a, cs[0]);
      NextKeeps(a, c);
      IdleStays(a, c, t);
      NeverFires(b, cs[1..], t);
    }
  }

  lemma IdleStays(a: Agenda, c: Command, t: Tid)
    requires Settled(a) && CommandOk(a, c) && Spares(c, t) && t !in a.list
    ensures t !in Fired(a, c) && t !in Next(a, c).list
  {
    hide Sorted, LinearInsert, Erase, Restarted;
    match c
    case Tick =>
      var b := a.(now := a.now + 1);
      RestartedOther(b.(list := b.list[|DueNow(b)|..]), DueNow(b), t);
    case Create(_, _) =>
    case Start(u) => StartedOther(a, u, t);
    case Detach(u) => EraseMembers(a.list, u);
    case Stop(u) => EraseMembers(a.list, u);
    case SetTime(u, n) => EraseMembers(a.list, u);
    case SetPeriodic(u, p) =>
  }

  /**
   Over every run that does not name a running timer, whatever it does to the others, the timer
   fires exactly at its deadline, and if periodic exactly at every period after it.
   */
  lemma {:induction false} FiresExactlyOnSchedule(a: Agenda, cs: seq<Command>, t: Tid)
    requires Settled(a) && RunOk(a, cs) && t in a.list && forall i :: 0 <= i < |cs| ==> Spares(cs[i], t)
    ensures ListedOk(a, t)
    ensures Firings(a, cs, t) == Schedule(a.due[t], a.setups[t], Run(a, cs).now)
    decreases |cs|
  {
    hide Sorted, Distinct, Next, Fired;
    assert ListedOk(a, t) && SetupOk(a.setups[t]);
    if cs != [] {
      var c, b := cs[0], Next(a, cs[0]);
      NextKeeps(a, c);
      NextNow(a, c);
      LeftAlone(a, c, t);
      RunKeeps(b, cs[1..]);
      if t in b.list {
        FiresExactlyOnSchedule(b, cs[1..], t);
      } else {
        NeverFires(b, cs[1..], t);
      }
    }
  }

  /** What fires at each command of a run. */
  function AllFired(a: Agenda, cs: seq<Command>): seq<seq<Tid>>
    decreases |cs|
  {
    if cs == [] then [] else [Fired(a, cs[0])] + AllFired(Next(a, cs[0]), cs[1..])
  }

  /** The times at which `t` fires according to the log of a run that begins at `now`. */
  function TimesIn(log: seq<seq<Tid>>, cs: seq<Command>, now: nat, t: Tid): seq<nat>
    decreases |cs|
  {
    if cs == [] || log == [] then []
    else (if t in log[0] then [now + 1] else []) + TimesIn(log[1..], cs[1..], if cs[0].Tick? then now + 1 else now, t)
  }

  lemma {:induction false} LogHasFirings(a: Agenda, cs: seq<Command>, t: Tid)
    requires Settled(a) && RunOk(a, cs)
    ensures TimesIn(AllFired(a, cs), cs, a.now, t) == Firings(a, cs, t)
    decreases |cs|
  {
    hide Settled, Next, Fired;
    if cs != [] {
      var log := AllFired(a, cs);
      assert log[0] == Fired(a, cs[0]) && log[1..] == AllFired(Next(a, cs[0]), cs[1..]);
      NextKeeps(a, cs[0]);
      NextNow(a, cs[0]);
      LogHasFirings(Next(a, cs[0]), cs[1..], t);
    }
  }

  ghost predicate AllSpare(cs: seq<Command>, t: Tid) {
    forall i :: 0 <= i < |cs| ==> Spares(cs[i], t)
  }

  /** In a run's log, a timer that is left alone is there on schedule if it was running, and otherwise not at all. */
  ghost predicate LoggedOnSchedule(a: Agenda, cs: seq<Command>, log: seq<seq<Tid>>, end: nat, t: Tid) {
    AllSpare(cs, t) ==>
      if t in a.list then
        t in a.due && t in a.setups && TimesIn(log, cs, a.now, t) == Schedule(a.due[t], a.setups[t], end)
      else
        TimesIn(log, cs, a.now, t) == []
  }

  lemma LogIsOnSchedule(a: Agenda, cs: seq<Command>, t: Tid)
    requires Settled(a) && RunOk(a, cs)
    ensures LoggedOnSchedule(a, cs, AllFired(a, cs), Run(a, cs).now, t)
  {
    if AllSpare(cs, t) {
      LogHasFirings(a, cs, t);
      if t in a.list {
        FiresExactlyOnSchedule(a, cs, t);
      } else {
        NeverFires(a, cs, t);
      }
    }
  }

  /** Timers that are due at the same tick fire in the order in which they were started. */
  lemma FiredInStartOrder(a: Agenda, i: nat, j: nat)
    requires Settled(a) && i < j < |Fired(a, Tick)|
    ensures ListedOk(a, Fired(a, Tick)[i]) && ListedOk(a, Fired(a, Tick)[j])
    ensures a.stamp[Fired(a, Tick)[i]] < a.stamp[Fired(a, Tick)[j]]
  {
    var b, f := a.(now := a.now + 1), Fired(a, Tick);
    NowMoves(a);
    assert f[i] == b.list[i] && f[j] == b.list[j];
    DueNowIsDue(b, f[i]);
    DueNowIsDue(b, f[j]);
    assert Before(a.due, a.stamp, a.list[i], a.list[j]);
    assert ListedOk(a, f[i]) && ListedOk(a, f[j]);
  }

  lemma StartedStamps(a: Agenda, t: Tid, x: Tid)
    requires t in a.setups
    ensures var b := Started(a, t);
      && t in b.stamp && b.stamp[t] == a.clock && b.clock == a.clock + 1
      && (x != t && x in a.stamp ==> x in b.stamp && b.stamp[x] == a.stamp[x])
  {
  }

  lemma {:induction false} RestartedStamps(a: Agenda, ts: seq<Tid>, i: nat, j: nat)
    requires Settled(a) && Distinct(ts) && i < j < |ts| && forall x :: x in ts ==> x in a.setups && x !in a.list
    requires a.setups[ts[i]].periodic && a.setups[ts[j]].periodic
    ensures var b := Restarted(a, ts); ts[i] in b.stamp && ts[j] in b.stamp && b.stamp[ts[i]] < b.stamp[ts[j]]
  {
    var us, t := ts[..|ts| - 1], ts[|ts| - 1];
    var b := Restarted(a, us);
    RestartedKeeps(a, us);
    assert Distinct(us) && forall x :: x in us ==> x in ts;
    assert us[i] == ts[i];
    if j == |ts| - 1 {
      RestartedSelf(a, us, ts[i]);
      assert ListedOk(b, ts[i]);
      StartedStamps(b, t, ts[i]);
    } else {
      assert us[j] == ts[j];
      RestartedStamps(a, us, i, j);
      if b.setups[t].periodic {
        StartedStamps(b, t, ts[i]);
        StartedStamps(b, t, ts[j]);
      }
    }
  }

  /** Periodic timers that fire at the same tick start again in the same order. */
  lemma RestartedInOrder(a: Agenda, i: nat, j: nat)
    requires Settled(a) && i < j < |Fired(a, Tick)|
    requires forall x :: x in Fired(a, Tick) ==> x in a.setups
    requires a.setups[Fired(a, Tick)[i]].periodic && a.setups[Fired(a, Tick)[j]].periodic
    ensures var f, b := Fired(a, Tick), Next(a, Tick); f[i] in b.stamp && f[j] in b.stamp && b.stamp[f[i]] < b.stamp[f[j]]
  {
    hide Settled, Wf, Restarted, DueNow, Distinct;
    var c := a.(now := a.now + 1);
    var f, rest := DueNow(c), c.(list := c.list[|DueNow(c)|..]);
    NowMoves(a);
    RestIsFuture(c);
    FiredOnce(c);
    RestartedStamps(rest, f, i, j);
  }

  lemma FiredOnce(a: Agenda)
    requires Wf(a)
    ensures Distinct(DueNow(a)) && forall x :: x in DueNow(a) ==> x !in a.list[|DueNow(a)|..]
  {
    var f := DueNow(a);
    assert f == a.list[..|f|];
    hide DueNow;
    forall x | x in f
      ensures x !in a.list[|f|..]
    {
      var k :| 0 <= k < |f| && f[k] == x;
      assert a.list[k] == x;
    }
  }

  // ----- for the loop of the implementation

  function Prefixed(xs: seq<Tid>, a: Agenda): Agenda {
    a.(list := xs + a.list)
  }

  /** Starting a timer commutes with having due timers in front of the list. */
  lemma StartedBehind(xs: seq<Tid>, a: Agenda, t: Tid)
    requires t in a.setups && t !in xs && t !in a.list
    requires forall x :: x in xs ==> x in a.due && a.due[x] <= a.now + a.setups[t].init
    ensures Started(Prefixed(xs, a), t) == Prefixed(xs, Started(a, t))
  {
    hide LinearInsert;
    EraseMembers(xs + a.list, t);
    EraseMembers(a.list, t);
    InsertBehind(a.due, xs, a.list, t, a.now + a.setups[t].init);
  }
}
