/**
 What the callers of a message queue get, over every interleaving: a send delivers its message once or fails, and a
 receive returns bytes that some send was given.
 */
module MessageDelivery {
  import opened Wrappers
  import opened Sequences
  import opened MessageProtocol

  // ----- a send, from its call to its result

  /** Thread `t` is in a send of `m`. */
  ghost predicate InSend(j: Job, m: Message, urgent: bool) {
    match j
    case Sending(m', u, _) => m' == m && u == urgent
    case SendWaits(m') => m' == m && !urgent
    case Filling(_, m', u) => m' == m && u == urgent
    case Filled(_, m', u) => m' == m && u == urgent
    case _ => false
  }

  /** The messages that a step of `t` adds to those accepted. */
  function Added(c: Config, p: Queue, s: Step, t: Tid): seq<Message> {
    var q := Next(c, p, s);
    if !Dismisses(s) && s.t == t && |p.accepted| <= |q.accepted| then q.accepted[|p.accepted|..] else []
  }

  /** `x` is what a send of `m` puts into the queue. */
  predicate IsSent(c: Config, x: Message, m: Message, urgent: bool) {
    x.bytes == m.bytes && (c.priority && !urgent ==> x.prio == m.prio)
  }

  /** What one step does to a thread in a send: it goes on, or it ends with the message delivered, or with an error. */
  ghost predicate SendGoesOn(c: Config, p: Queue, s: Step, t: Tid, m: Message, urgent: bool) {
    var q, xs := Next(c, p, s), Added(c, p, s, t);
    && t in q.jobs
    && if !q.jobs[t].Done? then InSend(q.jobs[t], m, urgent) && xs == []
       else if q.jobs[t].code == 0 then |xs| == 1 && IsSent(c, xs[0], m, urgent) && q.accepted == p.accepted + xs
       else xs == [] && (q.jobs[t].code < 0 || (q.jobs[t].code == ERROR && Dismisses(s)))
  }

  lemma NothingAdded(c: Config, p: Queue, s: Step, t: Tid)
    requires Inv(c, p) && StepOk(c, p, s) && !s.Link?
    ensures Added(c, p, s, t) == []
  {
    Recorded(c, p, s);
    hide Inv, Next, StepOk;
  }

  lemma LinkDelivers(c: Config, p: Queue, t: Tid)
    requires Inv(c, p) && StepOk(c, p, Link(t))
    ensures var q, xs := Next(c, p, Link(t)), Added(c, p, Link(t), t);
      && t in q.jobs && q.jobs[t] == Done(0)
      && |xs| == 1 && IsSent(c, xs[0], p.jobs[t].m, p.jobs[t].urgent) && q.accepted == p.accepted + xs
  {
    var n, m, urgent := p.jobs[t].node, p.jobs[t].m, p.jobs[t].urgent;
    LinkedMessages(c, p, t);
    LinkedJobs(c, p, t);
    WokenJob(c, Linked(c, p, t, n, m, urgent), t);
    var x := Stamped(c, p, n, m, urgent);
    assert IsSent(c, x, m, urgent);
    hide Inv, Jobs, Messages, Stamped, InsertAt, LinkPoint, WakeReceiver, IsSent;
    assert (p.accepted + [x])[|p.accepted|..] == [x];
  }

  lemma OwnSendStep(c: Config, p: Queue, s: Step, t: Tid, m: Message, urgent: bool)
    requires Inv(c, p) && StepOk(c, p, s) && t in p.jobs && InSend(p.jobs[t], m, urgent) && !Dismisses(s) && s.t == t
    ensures SendGoesOn(c, p, s, t, m, urgent)
  {
    if s.Link? {
      LinkDelivers(c, p, t);
      hide Inv, Next, Added;
    } else {
      NothingAdded(c, p, s, t);
      hide Inv, Added, InsertAt, Without, Prefix, TextOf, Pos;
      match s
      case Reserve(_, _, _) =>
      case Fill(_) =>
      case Expire(_, _) =>
    }
  }

  lemma DismissedSend(c: Config, p: Queue, s: Step, t: Tid, m: Message, urgent: bool)
    requires Dismisses(s) && t in p.jobs && InSend(p.jobs[t], m, urgent)
    ensures SendGoesOn(c, p, s, t, m, urgent)
  {
    hide Messages, Reverse;
  }

  lemma SendStep(c: Config, p: Queue, s: Step, t: Tid, m: Message, urgent: bool)
    requires Inv(c, p) && StepOk(c, p, s) && t in p.jobs && InSend(p.jobs[t], m, urgent)
    ensures SendGoesOn(c, p, s, t, m, urgent)
  {
    if Dismisses(s) {
      DismissedSend(c, p, s, t, m, urgent);
    } else if s.t == t {
      OwnSendStep(c, p, s, t, m, urgent);
      hide Inv, StepOk, InSend, SendGoesOn;
    } else {
      OtherSend(c, p, s, t, m, urgent);
    }
  }

  lemma OtherSend(c: Config, p: Queue, s: Step, t: Tid, m: Message, urgent: bool)
    requires Inv(c, p) && StepOk(c, p, s) && t in p.jobs && InSend(p.jobs[t], m, urgent) && !Dismisses(s) && s.t != t
    ensures SendGoesOn(c, p, s, t, m, urgent)
  {
    hide Inv, Next, StepOk;
    OtherJob(c, p, s, t);
  }

  /** How a run ends for a call of `t`, if it does, and the messages it has added to those accepted. */
  function SendEnd(c: Config, p: Queue, ss: seq<Step>, t: Tid): (Option<int>, seq<Message>)
    decreases |ss|
  {
    if ss == [] then (None, [])
    else
      var q, xs := Next(c, p, ss[0]), Added(c, p, ss[0], t);
      if t in q.jobs && q.jobs[t].Done? then (Some(q.jobs[t].code), xs)
      else
        var (code, ys) := SendEnd(c, q, ss[1..], t);
        (code, xs + ys)
  }

  /** What a send of `m` may come to. */
  ghost predicate SendOutcome(c: Config, ss: seq<Step>, code: Option<int>, xs: seq<Message>, m: Message, urgent: bool) {
    && (code == Some(0) <==> |xs| == 1)
    && (|xs| == 1 ==> IsSent(c, xs[0], m, urgent))
    && (code != Some(0) ==> xs == [])
    && (code.Some? && code.value != 0 ==>
          code.value < 0 || (code.value == ERROR && exists i :: 0 <= i < |ss| && Dismisses(ss[i])))
  }

  lemma {:induction false} SendRuns(c: Config, p: Queue, ss: seq<Step>, t: Tid, m: Message, urgent: bool)
    requires Inv(c, p) && RunOk(c, p, ss) && t in p.jobs && InSend(p.jobs[t], m, urgent)
    ensures var (code, xs) := SendEnd(c, p, ss, t); SendOutcome(c, ss, code, xs, m, urgent)
    decreases |ss|
  {
    if ss != [] {
      var q := Next(c, p, ss[0]);
      SendStep(c, p, ss[0], t, m, urgent);
      NextKeeps(c, p, ss[0]);
      hide Inv, Next, StepOk, Added, InSend, IsSent;
      if !q.jobs[t].Done? {
        SendRuns(c, q, ss[1..], t, m, urgent);
        var (code, ys) := SendEnd(c, q, ss[1..], t);
        assert [] + ys == ys;
        assert forall i :: 0 <= i < |ss| - 1 ==> ss[1..][i] == ss[i + 1];
      } else if Dismisses(ss[0]) {
        assert Dismisses(ss[0]);
      }
    }
  }

  /**
   Over every run that begins with a send: it ends with 0 if and only if it has put its message into the queue, once and
   as it was given; otherwise it ends with an error, or not at all, and has put nothing there.
   */
  lemma SendDelivers(c: Config, p: Queue, ss: seq<Step>, t: Tid, m: Message, urgent: bool)
    requires Inv(c, p) && RunOk(c, p, ss) && ss != [] && ss[0] == CallSend(t, m, urgent)
    ensures var (code, xs) := SendEnd(c, p, ss, t);
      && SendOutcome(c, ss, code, xs, m, urgent)
      && (|m.bytes| > c.msgSize ==> code == Some(-ERROR))
  {
    var q := Next(c, p, ss[0]);
    NextKeeps(c, p, ss[0]);
    NothingAdded(c, p, ss[0], t);
    if !q.jobs[t].Done? {
      SendRuns(c, q, ss[1..], t, m, urgent);
      hide Inv, Next, StepOk, Added, IsSent;
      var (code, ys) := SendEnd(c, q, ss[1..], t);
      assert [] + ys == ys;
      assert forall i :: 0 <= i < |ss| - 1 ==> ss[1..][i] == ss[i + 1];
    } else {
      hide Inv, Added;
    }
  }

  // ----- from the sends to the receives

  /** What a step passes to the queue. */
  function Passed(s: Step): set<seq<Byte>> {
    if s.CallSend? then {s.m.bytes} else {}
  }

  function AllPassed(ss: seq<Step>): set<seq<Byte>> {
    if ss == [] then {} else Passed(ss[0]) + AllPassed(ss[1..])
  }

  lemma {:induction false} PassedByASend(ss: seq<Step>, b: seq<Byte>)
    ensures b in AllPassed(ss) <==> exists i :: 0 <= i < |ss| && ss[i].CallSend? && ss[i].m.bytes == b
  {
    if ss != [] {
      PassedByASend(ss[1..], b);
      assert forall i :: 0 < i < |ss| ==> ss[i] == ss[1..][i - 1];
      if i :| 0 <= i < |ss[1..]| && ss[1..][i].CallSend? && ss[1..][i].m.bytes == b {
        assert ss[i + 1].CallSend?;
      }
    }
  }

  ghost predicate IsPrefix(bytes: seq<Byte>, b: seq<Byte>) {
    |bytes| <= |b| && bytes == b[..|bytes|]
  }

  /** The bytes of a call are among `bs`, or what it returns is the front of one of them. */
  ghost predicate JobFrom(j: Job, bs: set<seq<Byte>>) {
    match j
    case Sending(m, _, _) => m.bytes in bs
    case SendWaits(m) => m.bytes in bs
    case Filling(_, m, _) => m.bytes in bs
    case Filled(_, m, _) => m.bytes in bs
    case Reading(_, _, m) => m.bytes in bs
    case Returning(_, bytes) => exists b :: b in bs && IsPrefix(bytes, b)
    case _ => true
  }

  ghost predicate JobsFrom(p: Queue, bs: set<seq<Byte>>) {
    forall t {:trigger p.jobs[t]} :: t in p.jobs ==> JobFrom(p.jobs[t], bs)
  }

  ghost predicate AllFrom(ms: seq<Message>, bs: set<seq<Byte>>) {
    forall i :: 0 <= i < |ms| ==> ms[i].bytes in bs
  }

  /** All bytes in the queue, in calls and in the record are those of `bs`. */
  ghost predicate From(p: Queue, bs: set<seq<Byte>>) {
    JobsFrom(p, bs) && AllFrom(Messages(p), bs) && AllFrom(p.accepted, bs) && AllFrom(p.taken, bs)
  }

  lemma JobFromMore(j: Job, bs: set<seq<Byte>>, cs: set<seq<Byte>>)
    requires JobFrom(j, bs)
    ensures JobFrom(j, bs + cs)
  {
  }

  lemma FromMore(p: Queue, bs: set<seq<Byte>>, cs: set<seq<Byte>>)
    requires From(p, bs)
    ensures From(p, bs + cs)
  {
    hide JobFrom;
    forall t | t in p.jobs
      ensures JobFrom(p.jobs[t], bs + cs)
    {
      JobFromMore(p.jobs[t], bs, cs);
    }
  }

  lemma ReadFrom(c: Config, p: Queue, t: Tid, bs: set<seq<Byte>>)
    requires Inv(c, p) && StepOk(c, p, Read(t)) && JobFrom(p.jobs[t], bs)
    ensures t in Next(c, p, Read(t)).jobs && JobFrom(Next(c, p, Read(t)).jobs[t], bs)
  {
    ReceivesWhatItTook(c, p, t);
    assert IsPrefix(Prefix(p.jobs[t].m.bytes, p.jobs[t].size), p.jobs[t].m.bytes);
    hide Inv, Prefix, IsPrefix;
  }

  lemma TakeFrom(c: Config, p: Queue, s: Step, bs: set<seq<Byte>>)
    requires StepOk(c, p, s) && s.Take? && AllFrom(Messages(p), bs)
    ensures s.t in Next(c, p, s).jobs && JobFrom(Next(c, p, s).jobs[s.t], bs)
  {
    if p.queue != [] {
      assert Messages(p)[0] == TextOf(p, p.queue[0]);
    }
    hide Messages, InsertAt, Pos, IsPrefix;
  }

  lemma CallFrom(c: Config, p: Queue, s: Step, bs: set<seq<Byte>>)
    requires StepOk(c, p, s) && !Dismisses(s) && JobFrom(p.jobs[s.t], bs) && Passed(s) <= bs
    requires s.CallSend? || s.Reserve? || s.Fill? || s.CallRecv? || s.Expire?
    ensures s.t in Next(c, p, s).jobs && JobFrom(Next(c, p, s).jobs[s.t], bs)
  {
    hide InsertAt, Without, Pos, IsPrefix, TextOf;
    match s
    case CallSend(_, _, _) =>
    case Reserve(_, _, _) =>
    case Fill(_) =>
    case CallRecv(_, _) =>
    case Expire(_, _) =>
  }

  lemma OwnJobFrom(c: Config, p: Queue, s: Step, bs: set<seq<Byte>>)
    requires Inv(c, p) && StepOk(c, p, s) && !Dismisses(s) && From(p, bs) && Passed(s) <= bs
    ensures s.t in Next(c, p, s).jobs && JobFrom(Next(c, p, s).jobs[s.t], bs)
  {
    assert JobFrom(p.jobs[s.t], bs);
    match s
    case Link(t) =>
      LinkDelivers(c, p, t);
      hide Inv, Next, From, Added;
    case GiveBack(t) =>
      GivenPlaces(c, p, t);
      WokenJob(c, Given(p, t, p.jobs[t].node, p.jobs[t].bytes), t);
      hide Inv, Jobs, WakeSender, From;
    case Take(_, _, _) => TakeFrom(c, p, s, bs);
    case Read(t) => ReadFrom(c, p, t, bs);
    case _ => CallFrom(c, p, s, bs);
  }

  lemma JobsKeepFrom(c: Config, p: Queue, s: Step, bs: set<seq<Byte>>)
    requires Inv(c, p) && StepOk(c, p, s) && From(p, bs) && Passed(s) <= bs
    ensures JobsFrom(Next(c, p, s), bs)
  {
    var q := Next(c, p, s);
    NextJobs(c, p, s);
    forall t | t in q.jobs
      ensures JobFrom(q.jobs[t], bs)
    {
      assert JobFrom(p.jobs[t], bs);
      if Dismisses(s) {
        DismissedFrom(c, p, s, t, bs);
      } else if t == s.t {
        OwnJobFrom(c, p, s, bs);
      } else {
        OtherJob(c, p, s, t);
        hide Inv, Next, StepOk, From;
      }
    }
  }

  lemma NextJobs(c: Config, p: Queue, s: Step)
    requires Inv(c, p) && StepOk(c, p, s)
    ensures Next(c, p, s).jobs.Keys == p.jobs.Keys
  {
    if s.Link? {
      LinkedJobs(c, p, s.t);
      WakersKeepThreads(c, Linked(c, p, s.t, p.jobs[s.t].node, p.jobs[s.t].m, p.jobs[s.t].urgent));
    } else if s.GiveBack? {
      GivenPlaces(c, p, s.t);
      WakersKeepThreads(c, Given(p, s.t, p.jobs[s.t].node, p.jobs[s.t].bytes));
    }
    if s.Link? || s.GiveBack? {
      hide Inv, Jobs, InsertAt, Prefix, Messages, LinkPoint, Stamped, TextOf, WakeReceiver, WakeSender;
    } else if Dismisses(s) {
      hide Inv, Messages, Reverse;
    } else {
      var j := CallJob(c, p, s);
      hide Inv, Next;
    }
  }

  lemma WakersKeepThreads(c: Config, p: Queue)
    requires Jobs(c, p)
    ensures WakeReceiver(p).jobs.Keys == p.jobs.Keys && WakeSender(p).jobs.Keys == p.jobs.Keys
  {
    assert p.receivers != [] ==> p.receivers[0] in p.receivers;
    assert p.senders != [] ==> p.senders[0] in p.senders;
  }

  lemma DismissedFrom(c: Config, p: Queue, s: Step, t: Tid, bs: set<seq<Byte>>)
    requires Dismisses(s) && t in p.jobs && JobFrom(p.jobs[t], bs)
    ensures t in Next(c, p, s).jobs && JobFrom(Next(c, p, s).jobs[t], bs)
  {
    hide Messages, Reverse, IsPrefix;
  }

  lemma RecordKeepsFrom(c: Config, p: Queue, s: Step, bs: set<seq<Byte>>)
    requires Inv(c, p) && StepOk(c, p, s) && From(p, bs)
    ensures var q := Next(c, p, s); AllFrom(Messages(q), bs) && AllFrom(q.accepted, bs) && AllFrom(q.taken, bs)
  {
    Recorded(c, p, s);
    RefinesDeque(c, p, s);
    if s.Link? {
      LinkDelivers(c, p, s.t);
      LinkedMessages(c, p, s.t);
      assert JobFrom(p.jobs[s.t], bs);
      InsertedFrom(c, p, s.t, bs);
    } else {
      DequeCases(c, p, s);
    }
    hide Inv, Next, StepOk, Messages, DequeAfter, JobFrom;
  }

  lemma InsertedFrom(c: Config, p: Queue, t: Tid, bs: set<seq<Byte>>)
    requires Inv(c, p) && StepOk(c, p, Link(t)) && AllFrom(Messages(p), bs) && p.jobs[t].m.bytes in bs
    ensures AllFrom(DequeAfter(c, p, Link(t)), bs)
  {
    hide Inv, LinkPoint, Messages;
  }

  lemma NextFrom(c: Config, p: Queue, s: Step, bs: set<seq<Byte>>)
    requires Inv(c, p) && StepOk(c, p, s) && From(p, bs)
    ensures From(Next(c, p, s), bs + Passed(s))
  {
    FromMore(p, bs, Passed(s));
    JobsKeepFrom(c, p, s, bs + Passed(s));
    RecordKeepsFrom(c, p, s, bs + Passed(s));
    hide Inv, Next, StepOk, JobsFrom, AllFrom;
  }

  lemma {:induction false} RunFrom(c: Config, p: Queue, ss: seq<Step>, bs: set<seq<Byte>>)
    requires Inv(c, p) && RunOk(c, p, ss) && From(p, bs)
    ensures From(Run(c, p, ss), bs + AllPassed(ss))
    decreases |ss|
  {
    hide Inv, From, Next, StepOk;
    if ss == [] {
      assert bs + AllPassed(ss) == bs;
    } else {
      NextKeeps(c, p, ss[0]);
      NextFrom(c, p, ss[0], bs);
      RunFrom(c, Next(c, p, ss[0]), ss[1..], bs + Passed(ss[0]));
      assert bs + Passed(ss[0]) + AllPassed(ss[1..]) == bs + AllPassed(ss);
    }
  }

  /** Over every run from the start: what a receive returns is the front of what some send was given. */
  lemma ReceivedWasSent(c: Config, threads: set<Tid>, ss: seq<Step>, t: Tid) returns (i: nat)
    requires RunOk(c, Start(c, threads), ss) && t in Run(c, Start(c, threads), ss).jobs
    requires Run(c, Start(c, threads), ss).jobs[t].Returning?
    ensures i < |ss| && ss[i].CallSend? && IsPrefix(Run(c, Start(c, threads), ss).jobs[t].bytes, ss[i].m.bytes)
  {
    var p := Start(c, threads);
    StartOk(c, threads);
    assert From(p, {});
    RunFrom(c, p, ss, {});
    var q := Run(c, p, ss);
    hide Start, Inv, Run, RunOk, AllFrom, IsPrefix;
    assert {} + AllPassed(ss) == AllPassed(ss);
    assert JobFrom(q.jobs[t], AllPassed(ss));
    var b :| b in AllPassed(ss) && IsPrefix(q.jobs[t].bytes, b);
    PassedByASend(ss, b);
    i :| 0 <= i < |ss| && ss[i].CallSend? && ss[i].m.bytes == b;
  }

  // ----- who is next

  /** An urgent message is the next to be received. */
  lemma UrgentIsNext(c: Config, p: Queue, t: Tid)
    requires Inv(c, p) && StepOk(c, p, Link(t)) && p.jobs[t].urgent
    ensures var ms := Messages(Next(c, p, Link(t)));
      ms != [] && ms[0].bytes == p.jobs[t].m.bytes && ms[1..] == Messages(p)
  {
    LinkedMessages(c, p, t);
    hide Inv, Next, Messages;
  }

  /** A message wakes the first of the waiting receivers, a free node the first of the senders, and nobody else. */
  lemma FirstIsWoken(c: Config, p: Queue, s: Step, t: Tid)
    requires Inv(c, p) && StepOk(c, p, s) && (s.Link? || s.GiveBack?) && t in p.jobs && t != s.t
    ensures var q := Next(c, p, s);
      && (s.Link? ==> q.senders == p.senders && q.receivers == if p.receivers == [] then [] else p.receivers[1..])
      && (s.GiveBack? ==> q.receivers == p.receivers && q.senders == if p.senders == [] then [] else p.senders[1..])
      && t in q.jobs
      && if s.Link? && p.receivers != [] && t == p.receivers[0] then
           p.jobs[t].RecvWaits? && q.jobs[t] == Receiving(p.jobs[t].size, true)
         else if s.GiveBack? && p.senders != [] && t == p.senders[0] then
           p.jobs[t].SendWaits? && q.jobs[t] == Sending(p.jobs[t].m, false, true)
         else
           q.jobs[t] == p.jobs[t]
  {
    if s.Link? && p.receivers != [] {
      assert JobOk(c, p, p.receivers[0]);
    }
    if s.GiveBack? && p.senders != [] {
      assert JobOk(c, p, p.senders[0]);
    }
    hide Places, Orders, NoLostWakeup, InsertAt, Messages, LinkPoint, Stamped, Prefix;
  }
}
