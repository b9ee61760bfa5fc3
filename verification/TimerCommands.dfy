/**
 What the commands on a timer mean for when it fires, read off the commands of a run and its log alone: which timers
 are running is not mentioned.
 */
module TimerCommands {
  import opened Wrappers
  import opened Sequences
  import opened SkipRows
  import opened TimerAgenda

  function Ticks(cs: seq<Command>): nat {
    if cs == [] then 0 else (if cs[0].Tick? then 1 else 0) + Ticks(cs[1..])
  }

  /** The setup of `t` after a command, if it exists. */
  function SetBy(u: Option<Setup>, c: Command, t: Tid): Option<Setup> {
    if Spares(c, t) then u
    else
      match c
      case Create(_, v) => Some(v)
      case Detach(_) => None
      case SetTime(_, n) => if u.Some? then Some(u.value.(init := n)) else None
      case SetPeriodic(_, p) => if u.Some? then Some(u.value.(periodic := p)) else None
      case _ => u
  }

  function SetByAll(u: Option<Setup>, cs: seq<Command>, t: Tid): Option<Setup>
    decreases |cs|
  {
    if cs == [] then u else SetByAll(SetBy(u, cs[0], t), cs[1..], t)
  }

  function SetupOf(a: Agenda, t: Tid): Option<Setup> {
    if t in a.setups then Some(a.setups[t]) else None
  }

  lemma TickKeepsSetups(a: Agenda)
    requires Settled(a)
    ensures Next(a, Tick).setups == a.setups
  {
    var b := a.(now := a.now + 1);
    NowMoves(a);
    RestIsFuture(b);
    RestartedKeeps(b.(list := b.list[|DueNow(b)|..]), DueNow(b));
  }

  lemma NextSetup(a: Agenda, c: Command, t: Tid)
    requires Settled(a) && CommandOk(a, c)
    ensures SetupOf(Next(a, c), t) == SetBy(SetupOf(a, t), c, t)
  {
    if c.Tick? {
      TickKeepsSetups(a);
    }
    hide Settled, Erase, LinearInsert, Restarted, DueNow;
  }

  lemma {:induction false} RunSetup(a: Agenda, cs: seq<Command>, t: Tid)
    requires Settled(a) && RunOk(a, cs)
    ensures SetupOf(Run(a, cs), t) == SetByAll(SetupOf(a, t), cs, t)
    ensures Run(a, cs).now == a.now + Ticks(cs)
    decreases |cs|
  {
    hide Settled, Next;
    if cs != [] {
      NextKeeps(a, cs[0]);
      NextNow(a, cs[0]);
      NextSetup(a, cs[0], t);
      RunSetup(Next(a, cs[0]), cs[1..], t);
    }
  }

  // ----- a run in two parts

  lemma {:induction false} RunParts(a: Agenda, xs: seq<Command>, ys: seq<Command>)
    requires RunOk(a, xs + ys)
    ensures RunOk(a, xs) && RunOk(Run(a, xs), ys)
    ensures Run(a, xs + ys) == Run(Run(a, xs), ys) && AllFired(a, xs + ys) == AllFired(a, xs) + AllFired(Run(a, xs), ys)
    ensures |AllFired(a, xs)| == |xs|
    decreases |xs|
  {
    hide Next, CommandOk, Fired;
    if xs == [] {
      assert xs + ys == ys;
    } else {
      assert (xs + ys)[0] == xs[0] && (xs + ys)[1..] == xs[1..] + ys;
      RunParts(Next(a, xs[0]), xs[1..], ys);
    }
  }

  lemma {:induction false} TicksParts(xs: seq<Command>, ys: seq<Command>)
    ensures Ticks(xs + ys) == Ticks(xs) + Ticks(ys)
  {
    if xs == [] {
      assert xs + ys == ys;
    } else {
      assert (xs + ys)[0] == xs[0] && (xs + ys)[1..] == xs[1..] + ys;
      TicksParts(xs[1..], ys);
    }
  }

  // ----- the last command that names a timer

  /** Command `i` names `t`, and none after it does. */
  ghost predicate NamedLast(cs: seq<Command>, i: nat, t: Tid) {
    i < |cs| && !Spares(cs[i], t) && AllSpare(cs[i + 1..], t)
  }

  /** What a command makes of the timer it names. */
  lemma NamedSeen(a: Agenda, c: Command, t: Tid)
    requires Settled(a) && CommandOk(a, c) && !Spares(c, t)
    ensures var b := Next(a, c);
      match c
      case Start(_) => t in a.setups && t in b.list && t in b.due && b.due[t] == a.now + a.setups[t].init
      case SetPeriodic(_, _) => (t in b.list <==> t in a.list) && b.due == a.due
      case _ => t !in b.list
  {
    hide Sorted, LinearInsert, Erase;
    match c
    case Start(_) => StartedSelf(a, t);
    case Stop(_) => EraseMembers(a.list, t);
    case Detach(_) => EraseMembers(a.list, t);
    case SetTime(_, _) => EraseMembers(a.list, t);
    case SetPeriodic(_, _) =>
    case Create(_, _) => assert t in a.list ==> ListedOk(a, t);
  }

  /** A command between ticks does nothing to a timer it does not name. */
  lemma OthersSame(a: Agenda, c: Command, u: Tid)
    requires Spares(c, u) && !c.Tick?
    ensures SameEntry(a, Next(a, c), u)
  {
    hide Erase, LinearInsert;
    match c
    case Start(t) => StartedOther(a, t, u);
    case Stop(t) => EraseMembers(a.list, t);
    case Detach(t) => EraseMembers(a.list, t);
    case SetTime(t, _) => EraseMembers(a.list, t);
    case SetPeriodic(_, _) =>
    case Create(_, _) =>
  }

  lemma AllOthersSame(a: Agenda, c: Command, t: Tid)
    requires !c.Tick? && c.t == t
    ensures OthersKept(a, Next(a, c), t)
  {
    hide Next, SameEntry;
    forall u | u != t
      ensures SameEntry(a, Next(a, c), u)
    {
      OthersSame(a, c, u);
    }
  }

  ghost predicate OthersKept(a: Agenda, b: Agenda, t: Tid) {
    forall u {:trigger SameEntry(a, b, u)} :: u != t ==> SameEntry(a, b, u)
  }

  lemma StartSeen(a: Agenda, t: Tid)
    requires Settled(a) && t in a.setups
    ensures var b := Started(a, t);
      && b == Next(a, Start(t)) && Settled(b) && b.setups == a.setups && b.now == a.now
      && t in b.list && t in b.due && b.due[t] == a.now + a.setups[t].init && OthersKept(a, b, t)
  {
    StartedKeeps(a, t);
    StartedSelf(a, t);
    AllOthersSame(a, Start(t), t);
    hide Settled, OthersKept, Erase, LinearInsert;
  }

  /**
   The times at which a timer fires after `c`, the last command on it, given at `now` with setup `u`: after a start
   exactly on schedule, after a stop, a detach, a new time or a creation never.
   */
  ghost predicate AsCommanded(c: Command, now: nat, u: Option<Setup>, times: seq<nat>, end: nat) {
    match c
    case Start(_) => u.Some? && times == Schedule(now + u.value.init, u.value, end)
    case SetPeriodic(_, p) => times == [] || (u.Some? && exists d :: times == Schedule(d, u.value.(periodic := p), end))
    case _ => times == []
  }

  /** The log of a run that leaves `t` alone, from how `t` stands at its beginning. */
  lemma AloneFrom(b: Agenda, cs: seq<Command>, t: Tid)
    requires Settled(b) && RunOk(b, cs) && AllSpare(cs, t)
    ensures var times := TimesIn(AllFired(b, cs), cs, b.now, t);
      if t in b.list then t in b.due && t in b.setups && times == Schedule(b.due[t], b.setups[t], b.now + Ticks(cs))
      else times == []
  {
    hide Settled, RunOk, AllFired, TimesIn, Schedule, AllSpare, Run;
    LogIsOnSchedule(b, cs, t);
    RunSetup(b, cs, t);
  }

  /** Over every run that begins with command `c` on `t`, which no other names. */
  lemma CommandThenAlone(a: Agenda, c: Command, cs: seq<Command>, t: Tid)
    requires Settled(a) && CommandOk(a, c) && !Spares(c, t) && RunOk(Next(a, c), cs) && AllSpare(cs, t)
    ensures AsCommanded(c, a.now, SetupOf(a, t), TimesIn(AllFired(Next(a, c), cs), cs, a.now, t), a.now + Ticks(cs))
  {
    hide Settled, CommandOk, Next, RunOk, AllFired, TimesIn, Schedule, AllSpare, Ticks;
    NextKeeps(a, c);
    NextNow(a, c);
    NamedSeen(a, c, t);
    NextSetup(a, c, t);
    AloneFrom(Next(a, c), cs, t);
  }

  lemma NamesNoTick(c: Command, t: Tid)
    requires !Spares(c, t)
    ensures !c.Tick?
  {
  }

  lemma TicksAround(xs: seq<Command>, c: Command, ys: seq<Command>)
    ensures Ticks(xs + ([c] + ys)) == Ticks(xs) + (if c.Tick? then 1 else 0) + Ticks(ys)
  {
    TicksParts(xs, [c] + ys);
    assert ([c] + ys)[1..] == ys;
  }

  /** What the log of a run says of `t` after command `i`, the last that names it. */
  ghost predicate LoggedAsCommanded(now: nat, u: Option<Setup>, cs: seq<Command>, log: seq<seq<Tid>>, i: nat, t: Tid) {
    NamedLast(cs, i, t) ==>
      && |log| == |cs|
      && AsCommanded(cs[i], now + Ticks(cs[..i]), SetByAll(u, cs[..i], t),
                     TimesIn(log[i + 1..], cs[i + 1..], now + Ticks(cs[..i]), t), now + Ticks(cs))
  }

  lemma AfterCommand(a: Agenda, xs: seq<Command>, c: Command, ys: seq<Command>)
    requires RunOk(a, xs + ([c] + ys))
    ensures var b := Run(a, xs);
      && RunOk(a, xs) && CommandOk(b, c) && RunOk(Next(b, c), ys)
      && |AllFired(a, xs + ([c] + ys))| == |xs| + 1 + |ys|
      && AllFired(a, xs + ([c] + ys))[|xs| + 1..] == AllFired(Next(b, c), ys)
  {
    hide Next, CommandOk, Fired;
    var b := Run(a, xs);
    RunParts(a, xs, [c] + ys);
    assert ([c] + ys)[0] == c && ([c] + ys)[1..] == ys;
    LogLength(Next(b, c), ys);
    var rest := AllFired(Next(b, c), ys);
    assert AllFired(b, [c] + ys) == [Fired(b, c)] + rest;
    hide AllFired;
    SkipOne(AllFired(a, xs), Fired(b, c), rest);
  }

  lemma SkipOne<T>(xs: seq<T>, x: T, ys: seq<T>)
    ensures (xs + ([x] + ys))[|xs| + 1..] == ys && |xs + ([x] + ys)| == |xs| + 1 + |ys|
  {
  }

  lemma {:induction false} LogLength(a: Agenda, cs: seq<Command>)
    ensures |AllFired(a, cs)| == |cs|
    decreases |cs|
  {
    hide Next, Fired;
    if cs != [] {
      LogLength(Next(a, cs[0]), cs[1..]);
    }
  }

  lemma LogIsAsCommanded(a: Agenda, cs: seq<Command>, i: nat, t: Tid)
    requires Settled(a) && RunOk(a, cs)
    ensures LoggedAsCommanded(a.now, SetupOf(a, t), cs, AllFired(a, cs), i, t)
  {
    if NamedLast(cs, i, t) {
      hide Settled, AsCommanded, AllFired, RunOk, TimesIn, AllSpare, Spares, SetByAll, Ticks;
      assert cs == cs[..i] + ([cs[i]] + cs[i + 1..]);
      LastIsAsCommanded(a, cs[..i], cs[i], cs[i + 1..], t);
    }
  }

  lemma LastIsAsCommanded(a: Agenda, xs: seq<Command>, c: Command, ys: seq<Command>, t: Tid)
    requires Settled(a) && RunOk(a, xs + ([c] + ys)) && !Spares(c, t) && AllSpare(ys, t)
    ensures var cs, now := xs + ([c] + ys), a.now + Ticks(xs);
      && |AllFired(a, cs)| == |cs|
      && AsCommanded(c, now, SetByAll(SetupOf(a, t), xs, t), TimesIn(AllFired(a, cs)[|xs| + 1..], ys, now, t), a.now + Ticks(cs))
  {
    hide Settled, CommandOk, Next, AsCommanded, AllFired, Run, RunOk, TimesIn, AllSpare, SetByAll, Ticks, SetupOf, Spares;
    AfterCommand(a, xs, c, ys);
    RunKeeps(a, xs);
    RunSetup(a, xs, t);
    TicksAround(xs, c, ys);
    NamesNoTick(c, t);
    CommandThenAlone(Run(a, xs), c, ys, t);
  }

  // ----- a change of the kind of a timer

  lemma {:induction false} SameKeysRunOk(a: Agenda, b: Agenda, cs: seq<Command>)
    requires Settled(a) && Settled(b) && a.setups.Keys == b.setups.Keys && RunOk(a, cs)
    ensures RunOk(b, cs)
    decreases |cs|
  {
    if cs != [] {
      NextKeeps(a, cs[0]);
      NextKeeps(b, cs[0]);
      forall t
        ensures t in Next(a, cs[0]).setups <==> t in Next(b, cs[0]).setups
      {
        NextSetup(a, cs[0], t);
        NextSetup(b, cs[0], t);
      }
      hide Settled, Next;
      SameKeysRunOk(Next(a, cs[0]), Next(b, cs[0]), cs[1..]);
    }
  }

  /**
   `RT_TIMER_CTRL_SET_PERIODIC` changes only what follows the next firing: with or without it a timer that is left alone
   fires next at the same time, or not at all; then the new kind decides.
   */
  lemma KindCountsLater(a: Agenda, t: Tid, p: bool, cs: seq<Command>)
    requires Settled(a) && t in a.setups && RunOk(Next(a, SetPeriodic(t, p)), cs) && AllSpare(cs, t)
    ensures RunOk(a, cs)
    ensures var with := TimesIn(AllFired(Next(a, SetPeriodic(t, p)), cs), cs, a.now, t);
      var without := TimesIn(AllFired(a, cs), cs, a.now, t);
      && (with == [] <==> without == [])
      && (with != [] ==> with[0] == without[0]
                         && with == Schedule(with[0], a.setups[t].(periodic := p), a.now + Ticks(cs)))
  {
    hide Settled, Next, RunOk, AllFired, TimesIn, Schedule, AllSpare, Ticks;
    KindAlone(a, t, p, cs);
    if t in a.list {
      ScheduleBegins(a.due[t], a.setups[t], a.now + Ticks(cs));
      ScheduleBegins(a.due[t], a.setups[t].(periodic := p), a.now + Ticks(cs));
    }
  }

  /** Both runs, from the deadline that the change leaves alone. */
  lemma KindAlone(a: Agenda, t: Tid, p: bool, cs: seq<Command>)
    requires Settled(a) && t in a.setups && RunOk(Next(a, SetPeriodic(t, p)), cs) && AllSpare(cs, t)
    ensures RunOk(a, cs)
    ensures var with := TimesIn(AllFired(Next(a, SetPeriodic(t, p)), cs), cs, a.now, t);
      var without := TimesIn(AllFired(a, cs), cs, a.now, t);
      if t in a.list then
        && t in a.due && without == Schedule(a.due[t], a.setups[t], a.now + Ticks(cs))
        && with == Schedule(a.due[t], a.setups[t].(periodic := p), a.now + Ticks(cs))
      else with == [] && without == []
  {
    var b := Next(a, SetPeriodic(t, p));
    hide Settled, Next, RunOk, AllFired, TimesIn, Schedule, AllSpare, Ticks;
    KindChanges(a, t, p);
    NextKeeps(a, SetPeriodic(t, p));
    NamedSeen(a, SetPeriodic(t, p), t);
    SameKeysRunOk(b, a, cs);
    AloneFrom(a, cs, t);
    AloneFrom(b, cs, t);
  }

  lemma KindChanges(a: Agenda, t: Tid, p: bool)
    requires t in a.setups
    ensures var b := Next(a, SetPeriodic(t, p));
      b.now == a.now && b.setups.Keys == a.setups.Keys && b.setups[t] == a.setups[t].(periodic := p)
  {
  }

  lemma ScheduleBegins(due: nat, u: Setup, end: nat)
    ensures Schedule(due, u, end) == [] <==> due > end
    ensures due <= end ==> Schedule(due, u, end)[0] == due
  {
  }
}
