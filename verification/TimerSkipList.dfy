/**
 The timers of `src/timer.c`: a deterministic skip list whose rows are searched with 32-bit
 wrap-around comparisons, proved to do what `TimerAgenda` says with unbounded time.
 */
module TimerSkipList {
  import opened Wrappers
  import opened Sequences
  import opened SkipRows
  import opened TimerAgenda
  import opened TimerCommands
  import opened Arithmetic

  datatype Timer = Timer(setup: Setup, timeout: nat, activated: bool, processing: bool)

  /** The difference of two tick counts as the unsigned type computes it. */
  function TickDiff(x: nat, y: nat): (r: nat)
    requires x < TICKS && y < TICKS
  {
    (x - y) % TICKS
  }

  /** Comparing wrapped deadlines is comparing deadlines, as long as they are less than half the range apart. */
  lemma WrappedCompare(x: nat, y: nat)
    requires x < y + HALF && y < x + HALF
    ensures var d := TickDiff(x % TICKS, y % TICKS);
      (d == 0 <==> x == y) && (d != 0 && d < HALF <==> x > y)
  {
    var q := (x % TICKS - y % TICKS) - (x - y);
    assert x == x / TICKS * TICKS + x % TICKS;
    assert y == y / TICKS * TICKS + y % TICKS;
    assert q == (y / TICKS - x / TICKS) * TICKS;
    ModOfSum(x - y, y / TICKS - x / TICKS);
  }

  lemma ModOfSum(d: int, k: int)
    requires 0 < d + HALF && d < HALF
    ensures (d + k * TICKS) % TICKS == if d >= 0 then d else d + TICKS
  {
    var r := if d >= 0 then d else d + TICKS;
    var j := if d >= 0 then k else k - 1;
    assert d + k * TICKS == j * TICKS + r;
  }

  /** How many rows above the last the timer with start number `n` enters: the factors `base` of `n`. */
  function Height(n: nat, base: nat, limit: nat): (h: nat)
    requires base >= 2
    ensures h <= limit
  {
    if limit == 0 || n % base != 0 then 0 else 1 + Height(n / base, base, limit - 1)
  }

  /** `tst & RT_TIMER_SKIP_LIST_MASK`. */
  function Masked(tst: nat, mask: nat): nat {
    tst % (mask + 1)
  }

  /** `tst >> ((RT_TIMER_SKIP_LIST_MASK + 1) >> 1)`, for a mask of 1 or 3. */
  function Shifted(tst: nat, mask: nat): nat {
    tst / (mask + 1)
  }

  lemma HeightStep(n: nat, mask: nat, limit: nat)
    requires mask >= 1
    ensures limit == 0 || Masked(n, mask) != 0 ==> Height(n, mask + 1, limit) == 0
    ensures limit > 0 && Masked(n, mask) == 0 ==> Height(n, mask + 1, limit) == 1 + Height(Shifted(n, mask), mask + 1, limit - 1)
  {
  }

  function Power(b: nat, n: nat): nat {
    if n == 0 then 1 else b * Power(b, n - 1)
  }

  lemma {:induction false} PowerPositive(b: nat, n: nat)
    requires b > 0
    ensures Power(b, n) > 0
  {
    if n > 0 { PowerPositive(b, n - 1); }
  }

  lemma DividesTwice(n: nat, b: nat, p: nat)
    requires b > 0 && p > 0 && b * p > 0
    ensures n % (b * p) == 0 <==> n % b == 0 && n / b % p == 0
  {
    if n % (b * p) == 0 {
      var k := n / (b * p);
      assert n == b * p * k == b * (p * k);
      ExactQuotient(p * k, b);
      ExactQuotient(k, p);
    }
    if n % b == 0 && n / b % p == 0 {
      var k := n / b / p;
      assert n == b * (n / b) && n / b == p * k;
      assert n == b * (p * k) == b * p * k;
      ExactQuotient(k, b * p);
    }
  }

  /** Of the starts, exactly every `base`-to-the-`h`th enters the row `h` above the last. */
  lemma {:induction false} EveryPowerEnters(n: nat, base: nat, limit: nat, h: nat)
    requires base >= 2 && h <= limit
    ensures Power(base, h) > 0
    ensures h <= Height(n, base, limit) <==> n % Power(base, h) == 0
  {
    PowerPositive(base, h);
    if h > 0 {
      EveryPowerEnters(n / base, base, limit - 1, h - 1);
      DividesTwice(n, base, Power(base, h - 1));
    }
  }

  function SetActivated(timers: map<Tid, Timer>, t: Tid, activated: bool): map<Tid, Timer>
    requires t in timers
  {
    timers[t := timers[t].(activated := activated)]
  }

  function SetTimeout(timers: map<Tid, Timer>, t: Tid, timeout: nat): map<Tid, Timer>
    requires t in timers
  {
    timers[t := timers[t].(timeout := timeout)]
  }

  function SetProcessing(timers: map<Tid, Timer>, t: Tid, processing: bool): map<Tid, Timer>
    requires t in timers
  {
    timers[t := timers[t].(processing := processing)]
  }

  lemma ProcessingEnds(timers: map<Tid, Timer>, t: Tid)
    requires t in timers && !timers[t].processing
    ensures t in SetProcessing(timers, t, true)
    ensures SetProcessing(SetProcessing(timers, t, true), t, false) == timers
  {
  }

  lemma ActivatedOnly(timers: map<Tid, Timer>, t: Tid, activated: bool)
    requires t in timers
    ensures t in SetActivated(timers, t, activated)
    ensures SetActivated(timers, t, activated)[t] == timers[t].(activated := activated)
  {
  }

  ghost predicate TimerOk(timers: map<Tid, Timer>, a: Agenda, x: Tid) {
    && x in timers && x in a.setups
    && timers[x].setup == a.setups[x]
    && !timers[x].processing
    && (timers[x].activated <==> x in a.list)
    && (x in a.list ==> x in a.due && timers[x].timeout == a.due[x] % TICKS)
  }

  ghost predicate TimersOk(timers: map<Tid, Timer>, a: Agenda) {
    && timers.Keys == a.setups.Keys
    && forall x {:trigger TimerOk(timers, a, x)} :: x in timers ==> TimerOk(timers, a, x)
  }

  /** The concrete rows, timers and tick stand for the agenda `a`. */
  ghost predicate Stands(rows: seq<seq<Tid>>, timers: map<Tid, Timer>, tick: nat, a: Agenda) {
    && RowsOk(rows) && rows[|rows| - 1] == a.list
    && tick == a.now % TICKS
    && TimersOk(timers, a)
  }

  lemma RowSorted(rows: seq<seq<Tid>>, a: Agenda, r: nat)
    requires RowsOk(rows) && rows[|rows| - 1] == a.list && Wf(a) && r < |rows|
    ensures Sorted(a.due, a.stamp, rows[r])
    ensures forall x :: x in rows[r] ==> x in a.list && ListedOk(a, x)
  {
    hide Filter, Sorted, Elems, Distinct, ListedOk;
    FilterSorted(a.due, a.stamp, a.list, Elems(rows[r]));
    FilterMembers(a.list, Elems(rows[r]));
  }

  lemma RowBelow(rows: seq<seq<Tid>>, r: nat, x: Tid)
    requires RowsOk(rows) && r + 1 < |rows| && x in rows[r]
    ensures x in rows[r + 1]
  {
    assert Elems(rows[r]) <= Elems(rows[r + 1]);
    assert x in Elems(rows[r]);
  }

  /** The first `p` of the timers `xs` are due by `d`. */
  ghost predicate DueBy(due: map<Tid, nat>, xs: seq<Tid>, p: nat, d: nat) {
    p <= |xs| && forall i :: 0 <= i < p ==> xs[i] in due && due[xs[i]] <= d
  }

  /** In a row in order, everything up to an element due by `d` is due by `d`, and from one after `d` on nothing is. */
  lemma UpTo(a: Agenda, xs: seq<Tid>, d: nat, j: nat)
    requires Sorted(a.due, a.stamp, xs) && j < |xs| && forall x :: x in xs ==> ListedOk(a, x)
    ensures ListedOk(a, xs[j])
    ensures a.due[xs[j]] <= d ==> DueBy(a.due, xs, j + 1, d)
    ensures a.due[xs[j]] > d ==> forall i :: j <= i < |xs| ==> xs[i] in a.due && a.due[xs[i]] > d
  {
    assert xs[j] in xs;
    assert forall i :: 0 <= i < j ==> Before(a.due, a.stamp, xs[i], xs[j]);
    assert forall i :: j < i < |xs| ==> Before(a.due, a.stamp, xs[j], xs[i]);
  }

  lemma StandsUnlisted(rows: seq<seq<Tid>>, timers: map<Tid, Timer>, tick: nat, a: Agenda, t: Tid)
    requires Stands(rows, timers, tick, a) && t in timers
    ensures Stands(RemoveFromAll(rows, t), SetActivated(timers, t, false), tick, Unlisted(a, t))
    ensures t !in Unlisted(a, t).list && t in SetActivated(timers, t, false) && |RemoveFromAll(rows, t)| == |rows| > 0
  {
    EraseMembers(a.list, t);
    hide RowsOk;
    RemovedRowsOk(rows, t);
    RemovedLast(rows, t);
    UnlistedTimers(timers, a, t);
  }

  lemma RemovedLast(rows: seq<seq<Tid>>, t: Tid)
    requires RowsOk(rows)
    ensures |rows| > 0 && |RemoveFromAll(rows, t)| == |rows|
    ensures RemoveFromAll(rows, t)[|rows| - 1] == Erase(rows[|rows| - 1], t)
  {
  }

  lemma UnlistedTimers(timers: map<Tid, Timer>, a: Agenda, t: Tid)
    requires TimersOk(timers, a) && t in timers
    ensures TimersOk(SetActivated(timers, t, false), Unlisted(a, t))
  {
    var timers' := SetActivated(timers, t, false);
    EraseMembers(a.list, t);
    forall x | x in timers'
      ensures TimerOk(timers', Unlisted(a, t), x)
    {
      assert TimerOk(timers, a, x);
    }
  }

  /** The deadline of a timer that is not running does not matter. */
  lemma TimeoutTimers(timers: map<Tid, Timer>, a: Agenda, t: Tid, timeout: nat)
    requires TimersOk(timers, a) && t in timers && t !in a.list
    ensures TimersOk(SetTimeout(timers, t, timeout), a)
  {
    var timers' := SetTimeout(timers, t, timeout);
    forall x | x in timers'
      ensures TimerOk(timers', a, x)
    {
      assert TimerOk(timers, a, x);
    }
  }

  lemma TimeoutStands(rows: seq<seq<Tid>>, timers: map<Tid, Timer>, tick: nat, a: Agenda, t: Tid, timeout: nat)
    requires Stands(rows, timers, tick, a) && t in timers && t !in a.list
    ensures Stands(rows, SetTimeout(timers, t, timeout), tick, a)
  {
    TimeoutTimers(timers, a, t, timeout);
  }

  lemma ReadyToInsert(rows: seq<seq<Tid>>, timers: map<Tid, Timer>, tick: nat, a: Agenda, t: Tid)
    requires Stands(rows, timers, tick, a) && Wf(a) && t in timers && t !in a.list
    ensures t in a.setups && SetupOk(a.setups[t])
    ensures var timeout := (tick + timers[t].setup.init) % TICKS; var timers' := SetTimeout(timers, t, timeout);
      && timeout == (a.now + a.setups[t].init) % TICKS
      && Stands(rows, timers', tick, a) && t in timers' && timers'[t].timeout == timeout
  {
    assert TimerOk(timers, a, t);
    WrappedSum(a.now, a.setups[t].init);
    TimeoutStands(rows, timers, tick, a, t, (tick + timers[t].setup.init) % TICKS);
    hide RowsOk, Wf;
  }

  lemma StartedTimers(timers: map<Tid, Timer>, a: Agenda, t: Tid)
    requires TimersOk(timers, a) && t in a.setups && timers[t].timeout == (a.now + a.setups[t].init) % TICKS
    ensures TimersOk(SetActivated(timers, t, true), Started(a, t))
  {
    var timers', b := SetActivated(timers, t, true), Started(a, t);
    StartedSelf(a, t);
    forall x | x in timers'
      ensures TimerOk(timers', b, x)
    {
      assert TimerOk(timers, a, x);
      assert x != t ==> timers'[x] == timers[x];
      if x != t { StartedOther(a, t, x); }
    }
  }

  lemma InsertedLast(rows: seq<seq<Tid>>, rows': seq<seq<Tid>>, a: Agenda, heads: seq<nat>, c: nat, t: Tid, d: nat)
    requires RowsOk(rows) && rows[|rows| - 1] == a.list && t in a.setups && t !in a.list
    requires d == a.now + a.setups[t].init
    requires Positions(a.due, rows, d, heads) && InsertedFrom(rows, rows', heads, c, t)
    ensures RowsOk(rows') && rows'[|rows'| - 1] == Started(a, t).list
  {
    hide RowsOk, Positions, Distinct, LinearInsert, InsertedFrom;
    InsertedLength(rows, rows', heads, c, t);
    InsertedRowsOk(a.due, rows, rows', heads, c, t, d);
    EraseMembers(a.list, t);
  }

  lemma InsertedLength(rows: seq<seq<Tid>>, rows': seq<seq<Tid>>, heads: seq<nat>, c: nat, x: Tid)
    requires InsertedFrom(rows, rows', heads, c, x)
    ensures |rows'| == |rows| == |heads|
  {
  }

  lemma InsertedFirst(rows: seq<seq<Tid>>, heads: seq<nat>, x: Tid)
    requires rows != [] && |heads| == |rows| && forall r :: 0 <= r < |rows| ==> heads[r] <= |rows[r]|
    ensures var c := |rows| - 1; InsertedFrom(rows, rows[c := InsertAt(rows[c], heads[c], x)], heads, c, x)
  {
    hide InsertAt;
  }

  lemma InsertedShape(rows: seq<seq<Tid>>, rows': seq<seq<Tid>>, heads: seq<nat>, c: nat, x: Tid)
    requires InsertedFrom(rows, rows', heads, c, x)
    ensures |rows'| == |rows| == |heads| && c < |rows|
  {
  }

  lemma InsertedMore(rows: seq<seq<Tid>>, rows': seq<seq<Tid>>, heads: seq<nat>, c: nat, x: Tid)
    requires InsertedFrom(rows, rows', heads, c, x) && c > 0
    ensures heads[c - 1] <= |rows'[c - 1]|
    ensures InsertedFrom(rows, rows'[c - 1 := InsertAt(rows'[c - 1], heads[c - 1], x)], heads, c - 1, x)
  {
    hide InsertAt;
  }

  lemma WrappedSum(x: nat, n: nat)
    ensures (x % TICKS + n) % TICKS == (x + n) % TICKS
  {
  }

  lemma SetupTimers(timers: map<Tid, Timer>, a: Agenda, t: Tid, setup: Setup, timer: Timer)
    requires TimersOk(timers, a) && timer.setup == setup && (t in timers || t !in a.list)
    requires if t in timers then timer == timers[t].(setup := setup) else !timer.activated && !timer.processing
    ensures TimersOk(timers[t := timer], a.(setups := a.setups[t := setup]))
  {
    var timers', b := timers[t := timer], a.(setups := a.setups[t := setup]);
    forall x | x in timers'
      ensures TimerOk(timers', b, x)
    {
      assert x in timers ==> TimerOk(timers, a, x);
    }
  }

  lemma DetachedTimers(timers: map<Tid, Timer>, a: Agenda, t: Tid)
    requires TimersOk(timers, a) && t !in a.list
    ensures TimersOk(timers - {t}, a.(setups := a.setups - {t}))
  {
    var timers', b := timers - {t}, a.(setups := a.setups - {t});
    forall x | x in timers'
      ensures TimerOk(timers', b, x)
    {
      assert TimerOk(timers, a, x);
    }
  }

  // ----- the loop of the check

  lemma HeadOff(a: Agenda)
    requires Wf(a) && a.list != []
    ensures Unlisted(a, a.list[0]) == a.(list := a.list[1..])
  {
    EraseMembers(a.list[1..], a.list[0]);
  }

  lemma FireReady(rows: seq<seq<Tid>>, timers: map<Tid, Timer>, tick: nat, a: Agenda, t: Tid)
    requires Stands(rows, timers, tick, a) && Wf(a) && a.list != [] && a.list[0] == t
    ensures t in timers && t in a.setups && timers[t].setup == a.setups[t] && timers[t].activated && !timers[t].processing
    ensures var b := a.(list := a.list[1..]);
      && Stands(RemoveFromAll(rows, t), SetActivated(timers, t, false), tick, b) && Wf(b)
      && Restarted(b, [t]) == if b.setups[t].periodic then Started(b, t) else b
  {
    assert t in a.list && ListedOk(a, t);
    assert t in timers.Keys;
    assert TimerOk(timers, a, t);
    hide Stands, Wf, Restarted, Started, ListedOk, TimerOk;
    StandsUnlisted(rows, timers, tick, a, t);
    UnlistedKeeps(a, t);
    HeadOff(a);
    RestartedOne(a.(list := a.list[1..]), t);
  }

  lemma RestartedOne(a: Agenda, t: Tid)
    ensures Restarted(a, [t]) == if t in a.setups && a.setups[t].periodic then Started(a, t) else a
  {
    assert [t][..0] == [];
    assert Restarted(a, []) == a;
  }

  function Rest(a: Agenda): Agenda {
    a.(list := a.list[|DueNow(a)|..])
  }

  /** The loop has come to `b`, having begun at `a`. */
  ghost predicate Between(a: Agenda, b: Agenda, fired: seq<Tid>) {
    var pre := DueNow(a);
    && Wf(a) && |fired| <= |pre| && fired == pre[..|fired|]
    && b == Prefixed(pre[|fired|..], Restarted(Rest(a), fired))
  }

  lemma CheckStarts(a: Agenda)
    requires Wf(a)
    ensures Between(a, a, [])
  {
    assert a.list == DueNow(a) + Rest(a).list;
  }

  /** A timer that is due and has not fired yet is as it was. */
  lemma StillDue(a: Agenda, fired: seq<Tid>, i: nat)
    requires Wf(a) && |fired| <= i < |DueNow(a)| && fired == DueNow(a)[..|fired|]
    ensures var t, c := DueNow(a)[i], Restarted(Rest(a), fired);
      t in c.due && c.due[t] == a.now == c.now && t !in c.list && c.setups == a.setups && t in a.setups
  {
    var t, pre := DueNow(a)[i], DueNow(a);
    hide Restarted, Sorted;
    RestIsFuture(a);
    DueNowIsDue(a, t);
    assert t == a.list[i];
    forall j | 0 <= j < |Rest(a).list|
      ensures Rest(a).list[j] != t
    {
      assert Rest(a).list[j] == a.list[|pre| + j];
    }
    RestartedOther(Rest(a), fired, t);
    RestartedKeeps(Rest(a), fired);
  }

  lemma HeadIsFuture(a: Agenda)
    requires Settled(a) && a.list != []
    ensures a.list[0] in a.due && a.now < a.due[a.list[0]]
  {
    assert ListedOk(a, a.list[0]);
  }

  lemma CheckHead(a: Agenda, b: Agenda, fired: seq<Tid>)
    requires Between(a, b, fired) && b.list != []
    ensures var t := b.list[0];
      && t in b.due && (b.due[t] <= b.now <==> |fired| < |DueNow(a)|)
      && (|fired| < |DueNow(a)| ==> t == DueNow(a)[|fired|])
  {
    hide Wf, DueNow;
    RestIsFuture(a);
    RestartedKeeps(Rest(a), fired);
    var c := Restarted(Rest(a), fired);
    if |fired| < |DueNow(a)| {
      StillDue(a, fired, |fired|);
    } else {
      assert b == c;
      HeadIsFuture(c);
    }
  }

  lemma FireNext(a: Agenda, b: Agenda, fired: seq<Tid>)
    requires Between(a, b, fired) && |fired| < |DueNow(a)|
    ensures b.list != [] && b.list[0] == DueNow(a)[|fired|]
    ensures Between(a, Restarted(b.(list := b.list[1..]), [b.list[0]]), fired + [b.list[0]])
  {
    var i := |fired|;
    var t, xs, c := DueNow(a)[i], DueNow(a)[i + 1..], Restarted(Rest(a), fired);
    RestIsDue(a, fired);
    hide Restarted, Prefixed, Wf;
    assert DueNow(a)[i..] == [t] + xs;
    assert DueNow(a)[..i + 1] == fired + [t];
    FireOne(b, xs, c, fired, Rest(a), t);
  }

  /** The next timer is due, and so are those behind it. */
  lemma RestIsDue(a: Agenda, fired: seq<Tid>)
    requires Wf(a) && |fired| < |DueNow(a)| && fired == DueNow(a)[..|fired|]
    ensures var i := |fired|;
      var t, xs, c := DueNow(a)[i], DueNow(a)[i + 1..], Restarted(Rest(a), fired);
      && t in c.setups && t !in c.list && t !in xs
      && forall x :: x in xs ==> x in c.due && c.due[x] == c.now
  {
    var i := |fired|;
    var t, xs, c := DueNow(a)[i], DueNow(a)[i + 1..], Restarted(Rest(a), fired);
    StillDue(a, fired, i);
    forall x | x in xs
      ensures x != t && x in c.due && c.due[x] == c.now
    {
      var j :| 0 <= j < |xs| && xs[j] == x;
      BehindIsDue(a, fired, i + 1 + j);
    }
  }

  lemma BehindIsDue(a: Agenda, fired: seq<Tid>, k: nat)
    requires Wf(a) && |fired| < k < |DueNow(a)| && fired == DueNow(a)[..|fired|]
    ensures var x, c := DueNow(a)[k], Restarted(Rest(a), fired);
      x != DueNow(a)[|fired|] && x in c.due && c.due[x] == c.now
  {
    StillDue(a, fired, k);
    assert a.list[k] == DueNow(a)[k] && a.list[|fired|] == DueNow(a)[|fired|];
    hide DueNow, Restarted;
  }

  lemma FireOne(b: Agenda, xs: seq<Tid>, c: Agenda, fired: seq<Tid>, rest: Agenda, t: Tid)
    requires c == Restarted(rest, fired) && b == Prefixed([t] + xs, c)
    requires t in c.setups && t !in xs && t !in c.list
    requires forall x :: x in xs ==> x in c.due && c.due[x] <= c.now
    ensures b.list != [] && b.list[0] == t
    ensures Restarted(b.(list := b.list[1..]), [t]) == Prefixed(xs, Restarted(rest, fired + [t]))
  {
    var b' := b.(list := b.list[1..]);
    assert [t] + xs + c.list == [t] + (xs + c.list);
    assert b' == Prefixed(xs, c);
    RestartedOne(b', t);
    assert (fired + [t])[..|fired|] == fired;
    if c.setups[t].periodic {
      StartedBehind(xs, c, t);
    }
  }

  lemma CheckDone(a: Agenda, b: Agenda, fired: seq<Tid>)
    requires Between(a, b, fired)
    requires b.list == [] || (b.list[0] in b.due && b.due[b.list[0]] > b.now)
    ensures fired == DueNow(a) && b == Checked(a) && Settled(b)
  {
    RestIsFuture(a);
    RestartedKeeps(Rest(a), DueNow(a));
    if b.list != [] {
      CheckHead(a, b, fired);
    }
    hide DueNow, Restarted, Wf, Settled;
    assert |fired| == |DueNow(a)|;
    assert fired == DueNow(a);
    assert DueNow(a)[|fired|..] == [];
    assert b.list == [] + Restarted(Rest(a), fired).list == Restarted(Rest(a), fired).list;
  }

  lemma StartedStands(rows: seq<seq<Tid>>, rows': seq<seq<Tid>>, timers: map<Tid, Timer>, tick: nat, a: Agenda, heads: seq<nat>, c: nat, t: Tid, d: nat)
    requires Stands(rows, timers, tick, a) && Wf(a) && t in a.setups && t !in a.list
    requires d == a.now + a.setups[t].init && t in timers && timers[t].timeout == d % TICKS
    requires Positions(a.due, rows, d, heads) && InsertedFrom(rows, rows', heads, c, t)
    ensures Stands(rows', SetActivated(timers, t, true), tick, Started(a, t)) && Wf(Started(a, t))
  {
    hide RowsOk, TimersOk, Wf, Positions, InsertedFrom, LinearInsert, Erase, SetActivated;
    InsertedLast(rows, rows', a, heads, c, t, d);
    StartedTimers(timers, a, t);
    StartedKeeps(a, t);
  }

  lemma TickStands(rows: seq<seq<Tid>>, timers: map<Tid, Timer>, tick: nat, a: Agenda)
    requires Stands(rows, timers, tick, a)
    ensures Stands(rows, timers, (tick + 1) % TICKS, a.(now := a.now + 1))
  {
    WrappedSum(a.now, 1);
    hide RowsOk;
    var b := a.(now := a.now + 1);
    forall x | x in timers
      ensures TimerOk(timers, b, x)
    {
      assert TimerOk(timers, a, x);
    }
  }

  lemma PositionsFit(due: map<Tid, nat>, rows: seq<seq<Tid>>, d: nat, heads: seq<nat>)
    requires Positions(due, rows, d, heads)
    ensures |heads| == |rows| && forall r :: 0 <= r < |rows| ==> heads[r] <= |rows[r]|
  {
  }

  lemma EraseTwice(xs: seq<Tid>, t: Tid)
    ensures Erase(Erase(xs, t), t) == Erase(xs, t)
  {
    EraseMembers(xs, t);
    EraseMembers(Erase(xs, t), t);
  }

  lemma StartedTwice(a: Agenda, t: Tid)
    requires t in a.setups
    ensures Started(Unlisted(a, t), t) == Started(a, t)
  {
    EraseTwice(a.list, t);
    hide Erase, LinearInsert;
  }

  class TimerList {
    const mask: nat
    var rows: seq<seq<Tid>>
    var timers: map<Tid, Timer>
    var tick: nat
    var randomNr: nat
    ghost var agenda: Agenda

    ghost predicate Inv()
      reads this
    {
      && mask in {1, 3} && randomNr < TICKS
      && Stands(rows, timers, tick, agenda) && Wf(agenda)
    }

    /** Between two interrupts. */
    ghost predicate Valid()
      reads this
    {
      Inv() && Settled(agenda)
    }

    /** `t` is running and due at `d`. */
    ghost predicate Runs(t: Tid, d: nat)
      reads this
    {
      && t in timers && timers[t].activated && timers[t].timeout == d % TICKS
      && rows != [] && t in rows[|rows| - 1] && t in agenda.list && t in agenda.due && agenda.due[t] == d
    }

    /** `t` is in no row. */
    ghost predicate Idle(t: Tid)
      reads this
    {
      && (t in timers ==> !timers[t].activated) && t !in agenda.list
      && forall r :: 0 <= r < |rows| ==> t !in rows[r]
    }

    lemma RunsNow(t: Tid)
      requires Inv() && t in agenda.list
      ensures t in agenda.due && Runs(t, agenda.due[t])
    {
      assert ListedOk(agenda, t);
      assert TimerOk(timers, agenda, t);
    }

    lemma IdleNow(t: Tid)
      requires Inv() && t !in agenda.list
      ensures Idle(t)
    {
      assert t in timers ==> TimerOk(timers, agenda, t);
      forall r | 0 <= r < |rows|
        ensures t !in rows[r]
      {
        RowSorted(rows, agenda, r);
      }
    }

    constructor (levels: nat, mask: nat, tick: nat)
      requires levels > 0 && mask in {1, 3} && tick < TICKS
      ensures Valid() && agenda == Agenda([], map[], map[], map[], 0, tick) && |rows| == levels
    {
      this.mask := mask;
      this.rows := seq(levels, i => []);
      this.timers := map[];
      this.tick := tick;
      this.randomNr := 0;
      this.agenda := Agenda([], map[], map[], map[], 0, tick);
    }

    /** `_timer_remove`. */
    method Remove(t: Tid)
      modifies this`rows
      ensures rows == RemoveFromAll(old(rows), t)
    {
      var i := 0;
      while i < |rows|
        invariant i <= |rows| == |old(rows)|
        invariant forall r :: 0 <= r < |rows| ==> rows[r] == if r < i then Erase(old(rows)[r], t) else old(rows)[r]
      {
        rows := rows[i := Erase(rows[i], t)];
        i := i + 1;
      }
    }

    lemma RowInOrder(r: nat)
      requires Inv() && r < |rows|
      ensures Sorted(agenda.due, agenda.stamp, rows[r])
      ensures forall x :: x in rows[r] ==> x in agenda.list && ListedOk(agenda, x)
    {
      RowSorted(rows, agenda, r);
    }

    /** One row of the search: on from position `from`, up to the first timer after the deadline. */
    method SearchRow(r: nat, from: nat, timeout: nat, ghost d: nat) returns (p: nat)
      requires Inv() && r < |rows| && from <= |rows[r]|
      requires agenda.now < d < agenda.now + HALF && timeout == d % TICKS
      requires DueBy(agenda.due, rows[r], from, d)
      ensures IsRowPosition(agenda.due, rows[r], d, p)
    {
      hide Stands, Wf, Sorted, RowsOk, TickDiff, ListedOk;
      RowInOrder(r);
      p := from;
      while p < |rows[r]|
        invariant p <= |rows[r]|
        invariant DueBy(agenda.due, rows[r], p, d)
      {
        var x := rows[r][p];
        UpTo(agenda, rows[r], d, p);
        KnownTimer(x);
        WrappedCompare(agenda.due[x], d);
        if TickDiff(timers[x].timeout, timeout) == 0 {
          p := p + 1;
          continue;
        } else if TickDiff(timers[x].timeout, timeout) < HALF {
          break;
        }
        p := p + 1;
      }
    }

    lemma KnownSetup(t: Tid)
      requires Inv() && t in timers
      ensures TimerOk(timers, agenda, t) && SetupOk(agenda.setups[t])
    {
      assert TimerOk(timers, agenda, t);
    }

    lemma KnownTimer(x: Tid)
      requires Inv() && x in agenda.list
      ensures ListedOk(agenda, x) && TimerOk(timers, agenda, x)
    {
      assert ListedOk(agenda, x);
      assert x in timers.Keys;
    }

    lemma SortedRow(r: nat, x: Tid)
      requires Inv() && r + 1 < |rows| && x in rows[r]
      ensures x in rows[r + 1] && Sorted(agenda.due, agenda.stamp, rows[r + 1])
      ensures forall y :: y in rows[r + 1] ==> ListedOk(agenda, y)
    {
      RowBelow(rows, r, x);
      RowSorted(rows, agenda, r + 1);
    }

    /** From the place found in one row down to the same timer in the next, or to the head of that row. */
    method Descend(r: nat, head: nat, ghost d: nat) returns (below: nat)
      requires Inv() && r + 1 < |rows| && IsRowPosition(agenda.due, rows[r], d, head)
      ensures below <= |rows[r + 1]|
      ensures below == 0 <==> head == 0
      ensures head > 0 ==> rows[r + 1][below - 1] == rows[r][head - 1]
      ensures DueBy(agenda.due, rows[r + 1], below, d)
    {
      hide Stands, Wf, Sorted;
      if head == 0 {
        return 0;
      }
      var x := rows[r][head - 1];
      SortedRow(r, x);
      below := IndexOf(rows[r + 1], x) + 1;
      UpTo(agenda, rows[r + 1], d, below - 1);
    }

    /** The search of `_timer_start`, through all rows. */
    method Search(timeout: nat, ghost d: nat) returns (heads: seq<nat>)
      requires Inv()
      requires agenda.now < d < agenda.now + HALF && timeout == d % TICKS
      ensures Positions(agenda.due, rows, d, heads)
    {
      hide Stands, Wf, IsRowPosition;
      heads := [];
      var head: nat := 0;
      var r := 0;
      while r < |rows|
        invariant r <= |rows| && |heads| == r
        invariant forall q :: 0 <= q < r ==> IsRowPosition(agenda.due, rows[q], d, heads[q])
        invariant r < |rows| ==> head <= |rows[r]|
        invariant r < |rows| ==> DueBy(agenda.due, rows[r], head, d)
      {
        head := SearchRow(r, head, timeout, d);
        heads := heads + [head];
        if r + 1 < |rows| {
          head := Descend(r, head, d);
        }
        r := r + 1;
      }
    }

    /** The end of `_timer_start`: into the last row, and into those above while the start number allows. */
    method InsertRows(t: Tid, heads: seq<nat>) returns (ghost c: nat)
      requires mask in {1, 3} && randomNr < TICKS
      requires rows != [] && |heads| == |rows| && forall r :: 0 <= r < |rows| ==> heads[r] <= |rows[r]|
      modifies this`rows, this`randomNr
      ensures randomNr == (old(randomNr) + 1) % TICKS
      ensures InsertedFrom(old(rows), rows, heads, c, t)
      ensures c == |rows| - 1 - Height(randomNr, mask + 1, |rows| - 1)
    {
      randomNr := (randomNr + 1) % TICKS;
      c := |rows| - 1;
      InsertedFirst(rows, heads, t);
      hide InsertedFrom, InsertAt, Height;
      ghost var before := rows;
      rows := rows[|rows| - 1 := InsertAt(rows[|rows| - 1], heads[|rows| - 1], t)];
      c := InsertAbove(t, heads, randomNr, before);
    }

    /** The loop over the rows above the last, upwards. */
    method InsertAbove(t: Tid, heads: seq<nat>, start: nat, ghost before: seq<seq<Tid>>) returns (ghost c: nat)
      requires mask >= 1 && rows != [] && |heads| == |rows| && InsertedFrom(before, rows, heads, |rows| - 1, t)
      modifies this`rows
      ensures InsertedFrom(before, rows, heads, c, t)
      ensures c == |rows| - 1 - Height(start, mask + 1, |rows| - 1)
    {
      var tst, lvl := start, |rows| - 1;
      c := lvl;
      hide InsertedFrom, InsertAt, Height, Masked, Shifted;
      ghost var levels, left := |rows|, Height(start, mask + 1, lvl);
      InsertedShape(before, rows, heads, c, t);
      while lvl > 0
        invariant lvl == c < |rows| == levels == |heads|
        invariant InsertedFrom(before, rows, heads, c, t)
        invariant left == Height(tst, mask + 1, lvl)
        invariant c - left == levels - 1 - Height(start, mask + 1, levels - 1)
      {
        HeightStep(tst, mask, lvl);
        if Masked(tst, mask) != 0 {
          break;
        }
        lvl := lvl - 1;
        InsertedMore(before, rows, heads, c, t);
        c, left := lvl, left - 1;
        rows := rows[lvl := InsertAt(rows[lvl], heads[lvl], t)];
        tst := Shifted(tst, mask);
      }
      HeightStep(tst, mask, lvl);
    }

    /** `_timer_remove` and the change of status after it. */
    method Unlist(t: Tid)
      requires Inv() && t in timers
      modifies this`rows, this`timers, this`agenda
      ensures Inv() && agenda == Unlisted(old(agenda), t) && t !in agenda.list
      ensures timers == SetActivated(old(timers), t, false) && |rows| == |old(rows)| > 0 && t in timers
    {
      StandsUnlisted(rows, timers, tick, agenda, t);
      UnlistedKeeps(agenda, t);
      hide Stands, Wf, SetActivated, Unlisted, RemoveFromAll;
      Remove(t);
      timers := SetActivated(timers, t, false);
      agenda := Unlisted(agenda, t);
    }

    /** `_timer_start`. */
    method TimerStart(t: Tid) returns (ok: bool)
      requires Inv() && t in timers
      modifies this
      ensures Inv() && ok == !old(timers[t].processing)
      ensures agenda == if ok then Started(old(agenda), t) else old(agenda)
    {
      if timers[t].processing {
        return false;
      }
      KnownSetup(t);
      StartedTwice(agenda, t);
      hide Stands, Wf, Started, Unlisted, SetActivated, SetTimeout;
      ok := true;
      Unlist(t);
      ReadyToInsert(rows, timers, tick, agenda, t);
      ghost var d := agenda.now + agenda.setups[t].init;
      timers := SetTimeout(timers, t, (tick + timers[t].setup.init) % TICKS);
      Insert(t, d);
    }

    /** The search and the insertion of `_timer_start`. */
    method Insert(t: Tid, ghost d: nat)
      requires Inv() && t in timers && t !in agenda.list && t in agenda.setups && SetupOk(agenda.setups[t])
      requires d == agenda.now + agenda.setups[t].init && timers[t].timeout == d % TICKS && rows != []
      modifies this
      ensures Inv() && agenda == Started(old(agenda), t)
    {
      hide Stands, Wf, Started, SetActivated, Positions, InsertedFrom;
      var heads := Search(timers[t].timeout, d);
      ghost var before := rows;
      PositionsFit(agenda.due, rows, d, heads);
      ghost var c := InsertRows(t, heads);
      StartedStands(before, rows, timers, tick, agenda, heads, c, t, d);
      timers := SetActivated(timers, t, true);
      agenda := Started(agenda, t);
    }

    /** `rt_timer_start`. */
    method Start(t: Tid) returns (ok: bool)
      requires Valid() && t in timers
      modifies this
      ensures Valid() && ok && agenda == Next(old(agenda), Command.Start(t))
      ensures t in timers && timers[t].setup == old(timers[t].setup) && Runs(t, old(agenda.now) + timers[t].setup.init)
      ensures OthersKept(old(agenda), agenda, t)
    {
      hide Stands, Wf, Settled, Started, OthersKept, Next, Runs;
      KnownSetup(t);
      StartSeen(agenda, t);
      ok := TimerStart(t);
      SameTimers();
      KnownSetup(t);
      RunsNow(t);
    }

    /** `rt_timer_stop`. */
    method Stop(t: Tid) returns (ok: bool)
      requires Valid() && t in timers
      modifies this
      ensures Valid() && ok == (t in old(agenda.list))
      ensures agenda == Next(old(agenda), Command.Stop(t))
      ensures t in timers && Idle(t) && OthersKept(old(agenda), agenda, t)
    {
      KnownSetup(t);
      UnlistedKeeps(agenda, t);
      AllOthersSame(agenda, Command.Stop(t), t);
      hide OthersKept, RowsOk;
      if !timers[t].activated {
        EraseMembers(agenda.list, t);
        IdleNow(t);
        return false;
      }
      Unlist(t);
      IdleNow(t);
      ok := true;
    }

    /** `_timer_init`, for a new timer. */
    method Create(t: Tid, setup: Setup)
      requires Valid() && t !in timers && SetupOk(setup)
      modifies this
      ensures Valid() && agenda == Next(old(agenda), Command.Create(t, setup))
      ensures t in timers && timers == old(timers)[t := Timer(setup, 0, false, false)] && rows == old(rows) && Idle(t)
    {
      NextKeeps(agenda, Command.Create(t, setup));
      assert forall x :: x in agenda.list ==> ListedOk(agenda, x);
      SetupTimers(timers, agenda, t, setup, Timer(setup, 0, false, false));
      timers := timers[t := Timer(setup, 0, false, false)];
      agenda := Next(agenda, Command.Create(t, setup));
      IdleNow(t);
    }

    /** `rt_timer_detach` and `rt_timer_delete`. */
    method Detach(t: Tid)
      requires Valid() && t in timers
      modifies this
      ensures Valid() && agenda == Next(old(agenda), Command.Detach(t)) && t !in timers
      ensures Idle(t) && OthersKept(old(agenda), agenda, t)
    {
      AllOthersSame(agenda, Command.Detach(t), t);
      NamedSeen(agenda, Command.Detach(t), t);
      hide OthersKept;
      NextKeeps(agenda, Command.Detach(t));
      Unlist(t);
      DetachedTimers(timers, agenda, t);
      timers := timers - {t};
      agenda := agenda.(setups := agenda.setups - {t});
      IdleNow(t);
    }

    /** `RT_TIMER_CTRL_SET_TIME` of `rt_timer_control`: stops a running timer. */
    method SetTime(t: Tid, init: nat)
      requires Valid() && t in timers && 1 <= init < HALF
      modifies this
      ensures Valid() && agenda == Next(old(agenda), Command.SetTime(t, init))
      ensures t in timers && timers[t].setup == old(timers[t].setup).(init := init)
      ensures Idle(t) && OthersKept(old(agenda), agenda, t)
    {
      AllOthersSame(agenda, Command.SetTime(t, init), t);
      NamedSeen(agenda, Command.SetTime(t, init), t);
      hide OthersKept;
      KnownSetup(t);
      NextKeeps(agenda, Command.SetTime(t, init));
      if timers[t].activated {
        Unlist(t);
      } else {
        EraseMembers(agenda.list, t);
      }
      KnownSetup(t);
      ghost var setup := agenda.setups[t].(init := init);
      SetupTimers(timers, agenda, t, setup, timers[t].(setup := setup));
      timers := timers[t := timers[t].(setup := timers[t].setup.(init := init))];
      agenda := agenda.(setups := agenda.setups[t := setup]);
      IdleNow(t);
    }

    /** `RT_TIMER_CTRL_SET_PERIODIC` and `RT_TIMER_CTRL_SET_ONESHOT`. */
    method SetPeriodic(t: Tid, periodic: bool)
      requires Valid() && t in timers
      modifies this
      ensures Valid() && agenda == Next(old(agenda), Command.SetPeriodic(t, periodic))
      ensures t in timers && timers == old(timers)[t := old(timers[t]).(setup := old(timers[t].setup).(periodic := periodic))]
      ensures rows == old(rows)
    {
      KnownSetup(t);
      NextKeeps(agenda, Command.SetPeriodic(t, periodic));
      ghost var setup := agenda.setups[t].(periodic := periodic);
      SetupTimers(timers, agenda, t, setup, timers[t].(setup := setup));
      timers := timers[t := timers[t].(setup := timers[t].setup.(periodic := periodic))];
      agenda := agenda.(setups := agenda.setups[t := setup]);
    }

    /** `rt_timer_next_timeout_tick`; nothing running fires before it. */
    method NextTimeout() returns (timeout: Option<nat>)
      requires Valid()
      ensures timeout.None? <==> agenda.list == []
      ensures timeout.Some? ==> agenda.list[0] in agenda.due && timeout.value == agenda.due[agenda.list[0]] % TICKS
      ensures forall i :: 0 < i < |agenda.list| ==> Before(agenda.due, agenda.stamp, agenda.list[0], agenda.list[i])
    {
      var bottom := rows[|rows| - 1];
      if bottom == [] {
        timeout := None;
      } else {
        KnownTimer(bottom[0]);
        timeout := Some(timers[bottom[0]].timeout);
      }
    }

    /** One timer of `rt_timer_check`: off the list, its function called, and back if it is periodic. */
    method Fire(t: Tid)
      requires Inv() && agenda.list != [] && t == agenda.list[0]
      modifies this
      ensures Inv()
      ensures agenda == Restarted(old(agenda).(list := old(agenda).list[1..]), [t])
    {
      FireReady(rows, timers, tick, agenda, t);
      hide Stands, Wf, TimerOk, Started, RemoveFromAll, SetActivated, SetProcessing, Restarted;
      ghost var a := agenda.(list := agenda.list[1..]);
      var periodic := timers[t].setup.periodic;
      ActivatedOnly(timers, t, false);
      ProcessingEnds(if periodic then timers else SetActivated(timers, t, false), t);
      Remove(t);
      if !periodic {
        timers := SetActivated(timers, t, false);
      }
      timers := SetProcessing(timers, t, true);
      timers := SetProcessing(timers, t, false);
      agenda := a;
      if periodic && timers[t].activated {
        timers := SetActivated(timers, t, false);
        var ok := TimerStart(t);
      }
    }

    /** The loop of `rt_timer_check`; the functions called do not touch the timers. */
    method Check() returns (fired: seq<Tid>)
      requires Inv()
      modifies this
      ensures Valid() && fired == DueNow(old(agenda)) && agenda == Checked(old(agenda))
    {
      fired := [];
      ghost var a := agenda;
      CheckStarts(a);
      hide Stands, Wf, Between;
      while rows[|rows| - 1] != []
        invariant Inv() && Between(a, agenda, fired)
        decreases |DueNow(a)| - |fired|
      {
        var t := rows[|rows| - 1][0];
        KnownTimer(t);
        CheckHead(a, agenda, fired);
        WrappedCompare(agenda.now, agenda.due[t]);
        if TickDiff(tick, timers[t].timeout) < HALF {
          FireNext(a, agenda, fired);
          Fire(t);
          fired := fired + [t];
        } else {
          break;
        }
      }
      CheckDone(a, agenda, fired);
    }

    /** `rt_tick_increase`: one tick, and the check of the timers. */
    method Tick() returns (fired: seq<Tid>)
      requires Valid()
      modifies this
      ensures Valid() && fired == Fired(old(agenda), Command.Tick) && agenda == Next(old(agenda), Command.Tick)
    {
      NowMoves(agenda);
      TickStands(rows, timers, tick, agenda);
      tick := (tick + 1) % TICKS;
      agenda := agenda.(now := agenda.now + 1);
      fired := Check();
    }

    /** One command of a run. */
    method Do(c: Command) returns (fired: seq<Tid>)
      requires Valid() && CommandOk(agenda, c)
      modifies this
      ensures Valid() && agenda == Next(old(agenda), c) && fired == Fired(old(agenda), c)
    {
      SameTimers();
      hide Stands, Wf, Settled, Next, DueNow;
      fired := [];
      match c {
        case Create(t, setup) => Create(t, setup);
        case Detach(t) => Detach(t);
        case Start(t) => var ok := Start(t);
        case Stop(t) => var ok := Stop(t);
        case SetTime(t, init) => SetTime(t, init);
        case SetPeriodic(t, periodic) => SetPeriodic(t, periodic);
        case Tick => fired := Tick();
      }
    }

    lemma SameTimers()
      requires Inv()
      ensures timers.Keys == agenda.setups.Keys
    {
    }

    /**
     A whole run of the timers is the run of the agenda, across any number of wrap-arounds: the timers that fire at
     each command are those of the agenda, so each timer that is left alone fires exactly on schedule.
     */
    method Run(cs: seq<Command>) returns (log: seq<seq<Tid>>)
      requires Valid() && RunOk(agenda, cs)
      modifies this
      ensures Valid() && agenda == TimerAgenda.Run(old(agenda), cs)
      ensures log == AllFired(old(agenda), cs)
      ensures forall t :: LoggedOnSchedule(old(agenda), cs, log, agenda.now, t)
      ensures forall i: nat, t :: LoggedAsCommanded(old(agenda.now), SetupOf(old(agenda), t), cs, log, i, t)
    {
      hide Stands, Wf, Settled, Next, Fired, LoggedOnSchedule, LoggedAsCommanded;
      ghost var a := agenda;
      log := [];
      var i := 0;
      while i < |cs|
        invariant i <= |cs| && Valid() && RunOk(agenda, cs[i..])
        invariant TimerAgenda.Run(agenda, cs[i..]) == TimerAgenda.Run(a, cs)
        invariant log + AllFired(agenda, cs[i..]) == AllFired(a, cs)
      {
        assert cs[i..][1..] == cs[i + 1..];
        var fired := Do(cs[i]);
        log := log + [fired];
        i := i + 1;
      }
      assert cs[i..] == [];
      assert log == AllFired(a, cs) && agenda == TimerAgenda.Run(a, cs);
      forall t
        ensures LoggedOnSchedule(a, cs, log, agenda.now, t)
      {
        LogIsOnSchedule(a, cs, t);
      }
      forall i: nat, t
        ensures LoggedAsCommanded(a.now, SetupOf(a, t), cs, log, i, t)
      {
        LogIsAsCommanded(a, cs, i, t);
      }
    }
  }
}
