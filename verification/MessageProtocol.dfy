/**
 The message queue of `src/ipc.c` as a protocol: the critical sections of concurrent sends and
 receives as atomic steps, with message nodes in flight between them.
 */
module MessageProtocol {
  import opened Wrappers
  import opened Sequences

  type Node = nat
  type Tid = nat
  type Byte = b: int | 0 <= b < 256

  const ERROR: int := 1
  const ETIMEOUT: int := 2
  const EFULL: int := 3

  /** `RT_MQ_ENTRY_MAX`: the counter of messages has 16 bits. */
  const ENTRY_MAX: nat := 0xFFFF

  datatype Message = Message(bytes: seq<Byte>, prio: int)

  /** `priority` stands for `RT_USING_MESSAGEQUEUE_PRIORITY`. */
  datatype Config = Config(maxMsgs: nat, msgSize: nat, priority: bool)

  /** Where a thread is in its call; `woken` marks one that a waker has sent back to look again. */
  datatype Job =
    | Done(code: int)
    | Sending(m: Message, urgent: bool, woken: bool)
    | SendWaits(m: Message)
    | Filling(node: Node, m: Message, urgent: bool)
    | Filled(node: Node, m: Message, urgent: bool)
    | Receiving(size: nat, woken: bool)
    | RecvWaits(size: nat)
    | Reading(node: Node, size: nat, m: Message)
    | Returning(node: Node, bytes: seq<Byte>)

  datatype Step =
    | CallSend(t: Tid, m: Message, urgent: bool)
    | Reserve(t: Tid, wait: bool, pos: nat)
    | Fill(t: Tid)
    | Link(t: Tid)
    | CallRecv(t: Tid, size: nat)
    | Take(t: Tid, wait: bool, pos: nat)
    | Read(t: Tid)
    | GiveBack(t: Tid)
    | Expire(t: Tid, code: int)
    | Reset
    | Detach

  /**
   `holder` says which call has a node in flight; `accepted`, `taken` and `dropped` only record what happened. A queue
   is live until it is detached or deleted.
   */
  datatype Queue = Queue(queue: seq<Node>, freed: seq<Node>, holder: map<Node, Tid>,
                         text: map<Node, Message>, jobs: map<Tid, Job>,
                         receivers: seq<Tid>, senders: seq<Tid>,
                         accepted: seq<Message>, taken: seq<Message>, dropped: seq<Message>,
                         live: bool)

  function Held(j: Job): Option<Node> {
    match j
    case Filling(n, _, _) => Some(n)
    case Filled(n, _, _) => Some(n)
    case Reading(n, _, _) => Some(n)
    case Returning(n, _) => Some(n)
    case _ => None
  }

  function Pos<T>(xs: seq<T>, k: nat): (p: nat)
    ensures p <= |xs|
  {
    if k <= |xs| then k else |xs|
  }

  /** The first of the messages with a lower priority. */
  function PriorityPoint(ms: seq<Message>, prio: int): (k: nat)
    ensures k <= |ms|
    ensures forall i :: 0 <= i < k ==> ms[i].prio >= prio
    ensures k < |ms| ==> ms[k].prio < prio
  {
    if ms == [] || ms[0].prio < prio then 0 else 1 + PriorityPoint(ms[1..], prio)
  }

  function TextOf(p: Queue, n: Node): Message {
    if n in p.text then p.text[n] else Message([], 0)
  }

  /** The messages in the queue, first the next to be received. */
  function Messages(p: Queue): (ms: seq<Message>)
    ensures |ms| == |p.queue|
    ensures forall i :: 0 <= i < |ms| ==> ms[i] == TextOf(p, p.queue[i])
  {
    seq(|p.queue|, i requires 0 <= i < |p.queue| => TextOf(p, p.queue[i]))
  }

  /** Where a message enters the queue. */
  function LinkPoint(c: Config, ms: seq<Message>, m: Message, urgent: bool): (k: nat)
    ensures k <= |ms|
  {
    if urgent then 0 else if c.priority then PriorityPoint(ms, m.prio) else |ms|
  }

  // ----- steps

  function SetJob(p: Queue, t: Tid, j: Job): Queue {
    p.(jobs := p.jobs[t := j])
  }

  /** `rt_susp_list_dequeue` of the receivers, if there is one. */
  function WakeReceiver(p: Queue): Queue {
    if p.receivers == [] then p
    else
      var r := p.receivers[0];
      var size := if r in p.jobs && p.jobs[r].RecvWaits? then p.jobs[r].size else 0;
      SetJob(p, r, Receiving(size, true)).(receivers := p.receivers[1..])
  }

  function WakeSender(p: Queue): Queue {
    if p.senders == [] then p
    else
      var s := p.senders[0];
      var m := if s in p.jobs && p.jobs[s].SendWaits? then p.jobs[s].m else Message([], 0);
      SetJob(p, s, Sending(m, false, true)).(senders := p.senders[1..])
  }

  ghost predicate StepOk(c: Config, p: Queue, s: Step) {
    match s
    case CallSend(t, m, urgent) => p.live && t in p.jobs && p.jobs[t].Done? && m.bytes != []
    case Reserve(t, wait, pos) => t in p.jobs && p.jobs[t].Sending?
    case Fill(t) => t in p.jobs && p.jobs[t].Filling?
    case Link(t) => t in p.jobs && p.jobs[t].Filled?
    case CallRecv(t, size) => p.live && t in p.jobs && p.jobs[t].Done? && size > 0
    case Take(t, wait, pos) => t in p.jobs && p.jobs[t].Receiving?
    case Read(t) => t in p.jobs && p.jobs[t].Reading?
    case GiveBack(t) => t in p.jobs && p.jobs[t].Returning?
    case Expire(t, code) => t in p.jobs && (p.jobs[t].SendWaits? || p.jobs[t].RecvWaits?) && code < 0
    case Reset => p.live
    case Detach => p.live
  }

  function Called(c: Config, p: Queue, t: Tid, m: Message, urgent: bool): Queue {
    SetJob(p, t, if |m.bytes| > c.msgSize then Done(-ERROR) else Sending(m, urgent, false))
  }

  function Reserved(p: Queue, t: Tid, m: Message, urgent: bool, wait: bool, pos: nat): Queue {
    if p.freed != [] then
      SetJob(p, t, Filling(p.freed[0], m, urgent)).(freed := p.freed[1..], holder := p.holder[p.freed[0] := t])
    else if urgent || !wait then SetJob(p, t, Done(-EFULL))
    else SetJob(p, t, SendWaits(m)).(senders := InsertAt(p.senders, Pos(p.senders, pos), t))
  }

  function FilledIn(p: Queue, t: Tid, n: Node, m: Message, urgent: bool): Queue {
    SetJob(p, t, Filled(n, m, urgent)).(text := p.text[n := TextOf(p, n).(bytes := m.bytes)])
  }

  /** The message enters the queue, as the priority configuration stamps it. */
  function Stamped(c: Config, p: Queue, n: Node, m: Message, urgent: bool): Message {
    TextOf(p, n).(prio := if c.priority && !urgent then m.prio else TextOf(p, n).prio)
  }

  function Linked(c: Config, p: Queue, t: Tid, n: Node, m: Message, urgent: bool): Queue {
    var s := Stamped(c, p, n, m, urgent);
    SetJob(p, t, Done(0)).(
      queue := InsertAt(p.queue, LinkPoint(c, Messages(p), m, urgent), n),
      holder := p.holder - {n},
      text := p.text[n := s],
      accepted := p.accepted + [s])
  }

  function Taken(p: Queue, t: Tid, size: nat, wait: bool, pos: nat): Queue {
    if p.queue != [] then
      var n := p.queue[0];
      SetJob(p, t, Reading(n, size, TextOf(p, n))).(
        queue := p.queue[1..], holder := p.holder[n := t], taken := p.taken + [TextOf(p, n)])
    else if !wait then SetJob(p, t, Done(-ETIMEOUT))
    else SetJob(p, t, RecvWaits(size)).(receivers := InsertAt(p.receivers, Pos(p.receivers, pos), t))
  }

  function Prefix<T>(xs: seq<T>, n: nat): (r: seq<T>)
    ensures |r| <= n && |r| <= |xs| && (|r| == n || |r| == |xs|) && r == xs[..|r|]
  {
    if |xs| <= n then xs else xs[..n]
  }

  function Given(p: Queue, t: Tid, n: Node, bytes: seq<Byte>): Queue {
    SetJob(p, t, Done(|bytes|)).(freed := [n] + p.freed, holder := p.holder - {n})
  }

  function Expired(p: Queue, t: Tid, code: int): Queue {
    SetJob(p, t, Done(code)).(receivers := Without(p.receivers, t), senders := Without(p.senders, t))
  }

  function Reverse<T>(xs: seq<T>): seq<T> {
    if xs == [] then [] else Reverse(xs[1..]) + [xs[0]]
  }

  /** `rt_susp_list_resume_all` on both lists: every waiter leaves with `RT_ERROR`. */
  function Dismissed(jobs: map<Tid, Job>): map<Tid, Job> {
    map t | t in jobs :: if jobs[t].SendWaits? || jobs[t].RecvWaits? then Done(ERROR) else jobs[t]
  }

  /** The steps that dismiss all waiters, and are no part of a send or receive. */
  predicate Dismisses(s: Step) {
    s.Reset? || s.Detach?
  }

  /** `rt_mq_detach` and `rt_mq_delete`: the waiters are dismissed and nothing else happens to the queue. */
  function WasDetached(p: Queue): Queue {
    p.(jobs := Dismissed(p.jobs), receivers := [], senders := [], live := false)
  }

  /** `rt_mq_control` with `RT_IPC_CMD_RESET`: the waiters are dismissed, every message is dropped. */
  function WasReset(p: Queue): Queue {
    p.(jobs := Dismissed(p.jobs),
       receivers := [], senders := [],
       queue := [], freed := Reverse(p.queue) + p.freed,
       dropped := p.dropped + Messages(p))
  }

  function Next(c: Config, p: Queue, s: Step): Queue {
    if s.Reset? then WasReset(p)
    else if s.Detach? then WasDetached(p)
    else if s.t !in p.jobs then p
    else
      match (s, p.jobs[s.t])
      case (CallSend(t, m, urgent), Done(_)) => Called(c, p, t, m, urgent)
      case (Reserve(t, wait, pos), Sending(m, urgent, _)) => Reserved(p, t, m, urgent, wait, pos)
      case (Fill(t), Filling(n, m, urgent)) => FilledIn(p, t, n, m, urgent)
      case (Link(t), Filled(n, m, urgent)) => WakeReceiver(Linked(c, p, t, n, m, urgent))
      case (CallRecv(t, size), Done(_)) => SetJob(p, t, Receiving(size, false))
      case (Take(t, wait, pos), Receiving(size, _)) => Taken(p, t, size, wait, pos)
      case (Read(t), Reading(n, size, m)) => SetJob(p, t, Returning(n, Prefix(TextOf(p, n).bytes, size)))
      case (GiveBack(t), Returning(n, bytes)) => WakeSender(Given(p, t, n, bytes))
      case (Expire(t, code), SendWaits(_)) => Expired(p, t, code)
      case (Expire(t, code), RecvWaits(_)) => Expired(p, t, code)
      case (_, _) => p
  }

  // ----- invariant

  /** The length of every message that has passed the checks of a send. */
  predicate Fits(c: Config, bytes: seq<Byte>) {
    0 < |bytes| <= c.msgSize
  }

  /** A node of the pool is queued, free or in flight, and only one of these. */
  ghost predicate PlaceOk(c: Config, p: Queue, n: Node) {
    && (n < c.maxMsgs <==> n in p.queue || n in p.freed || n in p.holder)
    && (n < c.maxMsgs ==> n in p.text)
    && (n in p.queue ==> n in p.text && Fits(c, p.text[n].bytes))
    && !(n in p.queue && n in p.freed)
    && (n in p.holder ==> n !in p.queue && n !in p.freed)
    && (n in p.holder ==> p.holder[n] in p.jobs && Held(p.jobs[p.holder[n]]) == Some(n))
  }

  ghost predicate JobOk(c: Config, p: Queue, t: Tid) {
    && t in p.jobs
    && (match Held(p.jobs[t])
        case Some(n) => n in p.holder && p.holder[n] == t
        case None => true)
    && (t in p.receivers <==> p.jobs[t].RecvWaits?)
    && (t in p.senders <==> p.jobs[t].SendWaits?)
    && ContentOk(c, p.text, p.jobs[t])
  }

  /** The text of a node in flight is what its call put there or is to read there. */
  ghost predicate ContentOk(c: Config, text: map<Node, Message>, j: Job) {
    match j
    case Sending(m, _, _) => Fits(c, m.bytes)
    case SendWaits(m) => Fits(c, m.bytes)
    case Filling(n, m, _) => Fits(c, m.bytes)
    case Filled(n, m, _) => Fits(c, m.bytes) && n in text && text[n].bytes == m.bytes
    case Receiving(size, _) => size > 0
    case RecvWaits(size) => size > 0
    case Reading(n, size, m) => size > 0 && n in text && text[n] == m && Fits(c, m.bytes)
    case Returning(n, bytes) => Fits(c, bytes)
    case _ => true
  }

  function WokenReceivers(p: Queue): set<Tid> {
    set t | t in p.jobs && p.jobs[t].Receiving? && p.jobs[t].woken
  }

  function WokenSenders(p: Queue): set<Tid> {
    set t | t in p.jobs && p.jobs[t].Sending? && p.jobs[t].woken
  }

  /** While somebody waits, every message and every free node has a woken thread on its way to it. */
  ghost predicate NoLostWakeup(p: Queue) {
    && (p.receivers != [] ==> |p.queue| <= |WokenReceivers(p)|)
    && (p.senders != [] ==> |p.freed| <= |WokenSenders(p)|)
  }

  ghost predicate Places(c: Config, p: Queue) {
    forall n {:trigger PlaceOk(c, p, n)} :: PlaceOk(c, p, n)
  }

  ghost predicate Jobs(c: Config, p: Queue) {
    && (forall t {:trigger JobOk(c, p, t)} :: t in p.jobs ==> JobOk(c, p, t))
    && (forall t :: t in p.receivers ==> t in p.jobs)
    && (forall t :: t in p.senders ==> t in p.jobs)
  }

  ghost predicate Orders(p: Queue) {
    Distinct(p.queue) && Distinct(p.freed) && Distinct(p.receivers) && Distinct(p.senders)
  }

  ghost predicate Inv(c: Config, p: Queue) {
    Places(c, p) && Jobs(c, p) && Orders(p) && NoLostWakeup(p)
  }

  // ----- sequences without repetition

  lemma {:induction false} ReverseMembers<T(!new)>(xs: seq<T>)
    requires Distinct(xs)
    ensures Distinct(Reverse(xs)) && |Reverse(xs)| == |xs| && forall y :: y in Reverse(xs) <==> y in xs
  {
    if xs != [] {
      TailDistinct(xs);
      ReverseMembers(xs[1..]);
    }
  }

  lemma JoinDistinct<T(!new)>(xs: seq<T>, ys: seq<T>)
    requires Distinct(xs) && Distinct(ys) && forall x :: x in xs ==> x !in ys
    ensures Distinct(xs + ys)
  {
    forall i, j | 0 <= i < j < |xs + ys|
      ensures (xs + ys)[i] != (xs + ys)[j]
    {
      assert i < |xs| ==> (xs + ys)[i] in xs;
      assert j >= |xs| ==> (xs + ys)[j] in ys;
    }
  }

  // ----- a change of one job

  predicate Waits(j: Job) {
    j.RecvWaits? || j.SendWaits?
  }

  lemma SetJobPlaces(c: Config, p: Queue, t: Tid, j: Job)
    requires Places(c, p) && t in p.jobs && Held(j) == Held(p.jobs[t])
    ensures Places(c, SetJob(p, t, j))
  {
    forall n
      ensures PlaceOk(c, SetJob(p, t, j), n)
    {
      assert PlaceOk(c, p, n);
    }
  }

  lemma SetJobJobs(c: Config, p: Queue, t: Tid, j: Job)
    requires Jobs(c, p) && t in p.jobs && Held(j) == Held(p.jobs[t])
    requires !Waits(j) && !Waits(p.jobs[t]) && ContentOk(c, p.text, j)
    ensures Jobs(c, SetJob(p, t, j))
  {
    var q := SetJob(p, t, j);
    forall u | u in q.jobs
      ensures JobOk(c, q, u)
    {
      assert JobOk(c, p, u) && JobOk(c, p, t);
    }
  }

  function Receiver(j: Job): bool { j.Receiving? && j.woken }
  function Sender(j: Job): bool { j.Sending? && j.woken }

  lemma CountChange(s: set<Tid>, s': set<Tid>, t: Tid)
    requires forall u :: u != t ==> (u in s <==> u in s')
    ensures |s'| == |s| + (if t in s' then 1 else 0) - (if t in s then 1 else 0)
  {
    assert s' - {t} == s - {t};
    assert t in s' ==> s' == (s' - {t}) + {t};
    assert t in s ==> s == (s - {t}) + {t};
    assert t !in s' ==> s' == s' - {t};
    assert t !in s ==> s == s - {t};
  }

  lemma WokenAfter(p: Queue, q: Queue, t: Tid)
    requires t in p.jobs && t in q.jobs && q.jobs == p.jobs[t := q.jobs[t]]
    ensures |WokenReceivers(q)| == |WokenReceivers(p)| + (if Receiver(q.jobs[t]) then 1 else 0) - (if Receiver(p.jobs[t]) then 1 else 0)
    ensures |WokenSenders(q)| == |WokenSenders(p)| + (if Sender(q.jobs[t]) then 1 else 0) - (if Sender(p.jobs[t]) then 1 else 0)
  {
    CountChange(WokenReceivers(p), WokenReceivers(q), t);
    CountChange(WokenSenders(p), WokenSenders(q), t);
  }

  lemma SetJobKeeps(c: Config, p: Queue, t: Tid, j: Job)
    requires Inv(c, p) && t in p.jobs && Held(j) == Held(p.jobs[t])
    requires !Waits(j) && !Waits(p.jobs[t]) && ContentOk(c, p.text, j)
    requires Receiver(p.jobs[t]) ==> p.queue == []
    requires Sender(p.jobs[t]) ==> p.freed == []
    ensures Inv(c, SetJob(p, t, j))
  {
    SetJobPlaces(c, p, t, j);
    SetJobJobs(c, p, t, j);
    WokenAfter(p, SetJob(p, t, j), t);
    hide Places, Jobs, WokenReceivers, WokenSenders, Distinct;
  }

  // ----- waking

  lemma WakeReceiverKeeps(c: Config, p: Queue)
    requires Places(c, p) && Jobs(c, p) && Orders(p)
    requires p.receivers != [] ==> |p.queue| <= |WokenReceivers(p)| + 1
    requires p.senders != [] ==> |p.freed| <= |WokenSenders(p)|
    ensures Inv(c, WakeReceiver(p))
  {
    if p.receivers != [] {
      var r, q := p.receivers[0], WakeReceiver(p);
      TailDistinct(p.receivers);
      assert JobOk(c, p, r);
      SetJobPlaces(c, p, r, q.jobs[r]);
      forall n
        ensures PlaceOk(c, q, n)
      {
        assert PlaceOk(c, SetJob(p, r, q.jobs[r]), n);
      }
      forall u | u in q.jobs
        ensures JobOk(c, q, u)
      {
        assert JobOk(c, p, u);
      }
      WokenAfter(p, q, r);
    }
  }

  lemma WakeSenderKeeps(c: Config, p: Queue)
    requires Places(c, p) && Jobs(c, p) && Orders(p)
    requires p.senders != [] ==> |p.freed| <= |WokenSenders(p)| + 1
    requires p.receivers != [] ==> |p.queue| <= |WokenReceivers(p)|
    ensures Inv(c, WakeSender(p))
  {
    if p.senders != [] {
      var r, q := p.senders[0], WakeSender(p);
      TailDistinct(p.senders);
      assert JobOk(c, p, r);
      SetJobPlaces(c, p, r, q.jobs[r]);
      forall n
        ensures PlaceOk(c, q, n)
      {
        assert PlaceOk(c, SetJob(p, r, q.jobs[r]), n);
      }
      forall u | u in q.jobs
        ensures JobOk(c, q, u)
      {
        assert JobOk(c, p, u);
      }
      WokenAfter(p, q, r);
    }
  }

  // ----- the steps keep the invariant

  lemma ReservedPlaces(c: Config, p: Queue, t: Tid, m: Message, urgent: bool)
    requires Inv(c, p) && t in p.jobs && p.jobs[t].Sending? && p.freed != []
    ensures Places(c, Reserved(p, t, m, urgent, false, 0))
  {
    var q := Reserved(p, t, m, urgent, false, 0);
    TailDistinct(p.freed);
    forall n
      ensures PlaceOk(c, q, n)
    {
      assert PlaceOk(c, p, n);
    }
  }

  lemma ReservedJobs(c: Config, p: Queue, t: Tid, m: Message, urgent: bool)
    requires Inv(c, p) && t in p.jobs && p.jobs[t].Sending? && p.freed != [] && Fits(c, m.bytes)
    ensures Jobs(c, Reserved(p, t, m, urgent, false, 0))
  {
    var q := Reserved(p, t, m, urgent, false, 0);
    assert JobOk(c, p, t);
    assert PlaceOk(c, p, p.freed[0]);
    forall u | u in q.jobs
      ensures JobOk(c, q, u)
    {
      assert JobOk(c, p, u);
    }
  }

  lemma SenderSuspends(c: Config, p: Queue, t: Tid, m: Message, pos: nat)
    requires Inv(c, p) && t in p.jobs && p.jobs[t].Sending? && p.freed == [] && Fits(c, m.bytes)
    ensures Inv(c, Reserved(p, t, m, false, true, pos))
  {
    var q := Reserved(p, t, m, false, true, pos);
    var k := Pos(p.senders, pos);
    assert JobOk(c, p, t);
    InsertAtMembers(p.senders, k, t);
    InsertAtDistinct(p.senders, k, t);
    WokenAfter(p, q, t);
    hide InsertAt, Distinct, WokenReceivers, WokenSenders;
    forall n
      ensures PlaceOk(c, q, n)
    {
      assert PlaceOk(c, p, n);
    }
    forall u | u in q.jobs
      ensures JobOk(c, q, u)
    {
      assert JobOk(c, p, u);
    }
  }

  lemma ReservedKeeps(c: Config, p: Queue, t: Tid, wait: bool, pos: nat)
    requires Inv(c, p) && t in p.jobs && p.jobs[t].Sending?
    ensures Inv(c, Reserved(p, t, p.jobs[t].m, p.jobs[t].urgent, wait, pos))
  {
    var m, urgent := p.jobs[t].m, p.jobs[t].urgent;
    assert JobOk(c, p, t);
    if p.freed != [] {
      var q := Reserved(p, t, m, urgent, false, 0);
      ReservedPlaces(c, p, t, m, urgent);
      ReservedJobs(c, p, t, m, urgent);
      TailDistinct(p.freed);
      WokenAfter(p, q, t);
      hide Places, Jobs, Distinct, WokenReceivers, WokenSenders;
    } else if urgent || !wait {
      SetJobKeeps(c, p, t, Done(-EFULL));
    } else {
      SenderSuspends(c, p, t, m, pos);
    }
  }

  lemma FillKeeps(c: Config, p: Queue, t: Tid)
    requires Inv(c, p) && t in p.jobs && p.jobs[t].Filling?
    ensures Inv(c, FilledIn(p, t, p.jobs[t].node, p.jobs[t].m, p.jobs[t].urgent))
  {
    var n, q := p.jobs[t].node, FilledIn(p, t, p.jobs[t].node, p.jobs[t].m, p.jobs[t].urgent);
    assert JobOk(c, p, t);
    WokenAfter(p, q, t);
    hide Distinct, WokenReceivers, WokenSenders;
    forall k
      ensures PlaceOk(c, q, k)
    {
      assert PlaceOk(c, p, k);
    }
    forall u | u in q.jobs
      ensures JobOk(c, q, u)
    {
      assert JobOk(c, p, u);
    }
  }

  lemma LinkedPlaces(c: Config, p: Queue, t: Tid)
    requires Inv(c, p) && t in p.jobs && p.jobs[t].Filled?
    ensures Places(c, Linked(c, p, t, p.jobs[t].node, p.jobs[t].m, p.jobs[t].urgent))
    ensures p.jobs[t].node !in p.queue && p.jobs[t].node in p.holder
  {
    var n, m, urgent := p.jobs[t].node, p.jobs[t].m, p.jobs[t].urgent;
    var q := Linked(c, p, t, n, m, urgent);
    assert JobOk(c, p, t) && PlaceOk(c, p, n);
    InsertAtMembers(p.queue, LinkPoint(c, Messages(p), m, urgent), n);
    hide InsertAt, LinkPoint, Messages, Stamped;
    forall k
      ensures PlaceOk(c, q, k)
    {
      assert PlaceOk(c, p, k);
    }
  }

  lemma LinkedJobs(c: Config, p: Queue, t: Tid)
    requires Inv(c, p) && t in p.jobs && p.jobs[t].Filled?
    ensures Jobs(c, Linked(c, p, t, p.jobs[t].node, p.jobs[t].m, p.jobs[t].urgent))
  {
    var n, m, urgent := p.jobs[t].node, p.jobs[t].m, p.jobs[t].urgent;
    var q := Linked(c, p, t, n, m, urgent);
    assert JobOk(c, p, t) && PlaceOk(c, p, n);
    hide InsertAt, LinkPoint, Messages, Stamped;
    forall u | u in q.jobs
      ensures JobOk(c, q, u)
    {
      assert JobOk(c, p, u);
    }
  }

  lemma LinkKeeps(c: Config, p: Queue, t: Tid)
    requires Inv(c, p) && t in p.jobs && p.jobs[t].Filled?
    ensures Inv(c, WakeReceiver(Linked(c, p, t, p.jobs[t].node, p.jobs[t].m, p.jobs[t].urgent)))
  {
    var n, m, urgent := p.jobs[t].node, p.jobs[t].m, p.jobs[t].urgent;
    var q := Linked(c, p, t, n, m, urgent);
    LinkedPlaces(c, p, t);
    LinkedJobs(c, p, t);
    InsertAtDistinct(p.queue, LinkPoint(c, Messages(p), m, urgent), n);
    WokenAfter(p, q, t);
    hide Places, Jobs, Distinct, WokenReceivers, WokenSenders, LinkPoint, Messages, Stamped;
    WakeReceiverKeeps(c, q);
  }

  lemma TakenPlaces(c: Config, p: Queue, t: Tid, size: nat)
    requires Inv(c, p) && t in p.jobs && p.jobs[t].Receiving? && p.jobs[t].size == size && p.queue != []
    ensures Places(c, Taken(p, t, size, false, 0)) && Jobs(c, Taken(p, t, size, false, 0))
  {
    var q := Taken(p, t, size, false, 0);
    TailDistinct(p.queue);
    assert JobOk(c, p, t) && PlaceOk(c, p, p.queue[0]);
    forall n
      ensures PlaceOk(c, q, n)
    {
      assert PlaceOk(c, p, n);
    }
    forall u | u in q.jobs
      ensures JobOk(c, q, u)
    {
      assert JobOk(c, p, u);
    }
  }

  lemma ReceiverSuspends(c: Config, p: Queue, t: Tid, size: nat, pos: nat)
    requires Inv(c, p) && t in p.jobs && p.jobs[t].Receiving? && p.jobs[t].size == size && p.queue == []
    ensures Inv(c, Taken(p, t, size, true, pos))
  {
    var q := Taken(p, t, size, true, pos);
    var k := Pos(p.receivers, pos);
    assert JobOk(c, p, t);
    InsertAtMembers(p.receivers, k, t);
    InsertAtDistinct(p.receivers, k, t);
    WokenAfter(p, q, t);
    hide InsertAt, Distinct, WokenReceivers, WokenSenders;
    forall n
      ensures PlaceOk(c, q, n)
    {
      assert PlaceOk(c, p, n);
    }
    forall u | u in q.jobs
      ensures JobOk(c, q, u)
    {
      assert JobOk(c, p, u);
    }
  }

  lemma TakenKeeps(c: Config, p: Queue, t: Tid, wait: bool, pos: nat)
    requires Inv(c, p) && t in p.jobs && p.jobs[t].Receiving?
    ensures Inv(c, Taken(p, t, p.jobs[t].size, wait, pos))
  {
    var size := p.jobs[t].size;
    if p.queue != [] {
      var q := Taken(p, t, size, false, 0);
      TakenPlaces(c, p, t, size);
      TailDistinct(p.queue);
      WokenAfter(p, q, t);
      hide Places, Jobs, Distinct, WokenReceivers, WokenSenders;
    } else if !wait {
      SetJobKeeps(c, p, t, Done(-ETIMEOUT));
    } else {
      ReceiverSuspends(c, p, t, size, pos);
    }
  }

  lemma GivenKeeps(c: Config, p: Queue, t: Tid)
    requires Inv(c, p) && t in p.jobs && p.jobs[t].Returning?
    ensures Inv(c, WakeSender(Given(p, t, p.jobs[t].node, p.jobs[t].bytes)))
  {
    var n, q := p.jobs[t].node, Given(p, t, p.jobs[t].node, p.jobs[t].bytes);
    assert JobOk(c, p, t) && PlaceOk(c, p, n);
    JoinDistinct([n], p.freed);
    WokenAfter(p, q, t);
    GivenPlaces(c, p, t);
    hide Places, Jobs, Distinct, WokenReceivers, WokenSenders;
    WakeSenderKeeps(c, q);
  }

  lemma GivenPlaces(c: Config, p: Queue, t: Tid)
    requires Inv(c, p) && t in p.jobs && p.jobs[t].Returning?
    ensures var q := Given(p, t, p.jobs[t].node, p.jobs[t].bytes); Places(c, q) && Jobs(c, q)
  {
    var n, q := p.jobs[t].node, Given(p, t, p.jobs[t].node, p.jobs[t].bytes);
    assert JobOk(c, p, t) && PlaceOk(c, p, n);
    forall k
      ensures PlaceOk(c, q, k)
    {
      assert PlaceOk(c, p, k);
    }
    forall u | u in q.jobs
      ensures JobOk(c, q, u)
    {
      assert JobOk(c, p, u);
    }
  }

  lemma ExpiredKeeps(c: Config, p: Queue, t: Tid, code: int)
    requires Inv(c, p) && t in p.jobs && Waits(p.jobs[t])
    ensures Inv(c, Expired(p, t, code))
  {
    var q := Expired(p, t, code);
    WithoutMembers(p.receivers, t);
    WithoutMembers(p.senders, t);
    WokenAfter(p, q, t);
    hide Distinct, WokenReceivers, WokenSenders, Without;
    assert JobOk(c, p, t);
    forall n
      ensures PlaceOk(c, q, n)
    {
      assert PlaceOk(c, p, n);
    }
    forall u | u in q.jobs
      ensures JobOk(c, q, u)
    {
      assert JobOk(c, p, u);
    }
  }

  lemma ResetKeeps(c: Config, p: Queue)
    requires Inv(c, p)
    ensures Inv(c, WasReset(p))
  {
    var q := WasReset(p);
    ReverseMembers(p.queue);
    forall n | n in p.queue
      ensures n !in p.freed
    {
      assert PlaceOk(c, p, n);
    }
    JoinDistinct(Reverse(p.queue), p.freed);
    hide Distinct, WokenReceivers, WokenSenders, Reverse;
    forall n
      ensures PlaceOk(c, q, n)
    {
      assert PlaceOk(c, p, n);
    }
    forall u | u in q.jobs
      ensures JobOk(c, q, u)
    {
      assert JobOk(c, p, u);
    }
  }

  lemma DetachKeeps(c: Config, p: Queue)
    requires Inv(c, p)
    ensures Inv(c, WasDetached(p))
  {
    var q := WasDetached(p);
    hide WokenReceivers, WokenSenders;
    forall n
      ensures PlaceOk(c, q, n)
    {
      assert PlaceOk(c, p, n);
    }
    forall u | u in q.jobs
      ensures JobOk(c, q, u)
    {
      assert JobOk(c, p, u);
    }
  }

  /** Every step, of whichever thread, keeps the invariant. */
  lemma NextKeeps(c: Config, p: Queue, s: Step)
    requires Inv(c, p) && StepOk(c, p, s)
    ensures Inv(c, Next(c, p, s))
  {
    assert !Dismisses(s) ==> JobOk(c, p, s.t);
    hide Places, Jobs, Orders, NoLostWakeup, JobOk;
    match s
    case CallSend(t, m, urgent) =>
      SetJobKeeps(c, p, t, if |m.bytes| > c.msgSize then Done(-ERROR) else Sending(m, urgent, false));
    case Reserve(t, wait, pos) => ReservedKeeps(c, p, t, wait, pos);
    case Fill(t) => FillKeeps(c, p, t);
    case Link(t) => LinkKeeps(c, p, t);
    case CallRecv(t, size) => SetJobKeeps(c, p, t, Receiving(size, false));
    case Take(t, wait, pos) => TakenKeeps(c, p, t, wait, pos);
    case Read(t) =>
      SetJobKeeps(c, p, t, Returning(p.jobs[t].node, Prefix(TextOf(p, p.jobs[t].node).bytes, p.jobs[t].size)));
    case GiveBack(t) => GivenKeeps(c, p, t);
    case Expire(t, code) => ExpiredKeeps(c, p, t, code);
    case Reset => ResetKeeps(c, p);
    case Detach => DetachKeeps(c, p);
  }

  // ----- what a run of steps amounts to

  ghost predicate RunOk(c: Config, p: Queue, ss: seq<Step>)
    decreases |ss|
  {
    ss == [] || (StepOk(c, p, ss[0]) && RunOk(c, Next(c, p, ss[0]), ss[1..]))
  }

  function Run(c: Config, p: Queue, ss: seq<Step>): Queue
    decreases |ss|
  {
    if ss == [] then p else Run(c, Next(c, p, ss[0]), ss[1..])
  }

  lemma {:induction false} RunKeeps(c: Config, p: Queue, ss: seq<Step>)
    requires Inv(c, p) && RunOk(c, p, ss)
    ensures Inv(c, Run(c, p, ss))
    decreases |ss|
  {
    if ss != [] {
      NextKeeps(c, p, ss[0]);
      RunKeeps(c, Next(c, p, ss[0]), ss[1..]);
    }
  }

  /** A queue between its messages: what an outsider sees of it. */
  function DequeAfter(c: Config, p: Queue, s: Step): seq<Message> {
    var ms := Messages(p);
    if s.Reset? then []
    else if s.Detach? || s.t !in p.jobs then ms
    else
      match (s, p.jobs[s.t])
      case (Link(t), Filled(n, m, urgent)) =>
        var stamped := Message(m.bytes, if c.priority && !urgent then m.prio else TextOf(p, n).prio);
        InsertAt(ms, LinkPoint(c, ms, m, urgent), stamped)
      case (Take(_, _, _), Receiving(_, _)) => if ms == [] then ms else ms[1..]
      case (_, _) => ms
  }

  lemma SameMessages(p: Queue, q: Queue)
    requires q.queue == p.queue && forall n :: n in p.queue ==> TextOf(q, n) == TextOf(p, n)
    ensures Messages(q) == Messages(p)
  {
  }

  lemma LinkedMessages(c: Config, p: Queue, t: Tid)
    requires Inv(c, p) && t in p.jobs && p.jobs[t].Filled?
    ensures Messages(Next(c, p, Link(t))) == DequeAfter(c, p, Link(t))
    ensures Next(c, p, Link(t)).accepted == p.accepted + [Stamped(c, p, p.jobs[t].node, p.jobs[t].m, p.jobs[t].urgent)]
    ensures Stamped(c, p, p.jobs[t].node, p.jobs[t].m, p.jobs[t].urgent).bytes == p.jobs[t].m.bytes
  {
    var n, m, urgent := p.jobs[t].node, p.jobs[t].m, p.jobs[t].urgent;
    var q, ms := Linked(c, p, t, n, m, urgent), Messages(p);
    var k := LinkPoint(c, ms, m, urgent);
    LinkedPlaces(c, p, t);
    assert JobOk(c, p, t) && PlaceOk(c, p, n);
    var s := Stamped(c, p, n, m, urgent);
    hide Inv, Stamped, LinkPoint, Jobs, Places;
    assert Messages(q) == InsertAt(ms, k, s);
    SameMessages(q, WakeReceiver(q));
  }

  lemma TakenMessages(p: Queue, t: Tid, size: nat, wait: bool, pos: nat)
    ensures Messages(Taken(p, t, size, wait, pos)) == if Messages(p) == [] then [] else Messages(p)[1..]
  {
    hide InsertAt;
  }

  lemma QueueStays(c: Config, p: Queue, s: Step)
    requires StepOk(c, p, s)
    requires s.CallSend? || s.Reserve? || s.CallRecv? || s.Read? || s.Expire? || s.Detach?
    ensures Next(c, p, s).queue == p.queue && Next(c, p, s).text == p.text
    ensures DequeAfter(c, p, s) == Messages(p)
  {
    hide InsertAt, Without, Prefix, Pos, Messages, Dismissed, Reverse;
  }

  /**
   The queue refines a deque: a send appends, or in priority mode inserts behind the messages that are
   not less urgent; an urgent send prepends; a receive takes the first; nothing else changes it,
   although nodes leave and enter the queue in separate critical sections.
   */
  lemma RefinesDeque(c: Config, p: Queue, s: Step)
    requires Inv(c, p) && StepOk(c, p, s)
    ensures Messages(Next(c, p, s)) == DequeAfter(c, p, s)
  {
    hide Messages, Distinct, Stamped, LinkPoint;
    match s
    case Link(t) => LinkedMessages(c, p, t);
    case Fill(t) =>
      assert JobOk(c, p, t) && PlaceOk(c, p, p.jobs[t].node);
      SameMessages(p, Next(c, p, s));
    case Reset =>
    case Take(t, wait, pos) => TakenMessages(p, t, p.jobs[t].size, wait, pos);
    case GiveBack(t) =>
      var q := Given(p, t, p.jobs[t].node, p.jobs[t].bytes);
      SameMessages(p, q);
      SameMessages(q, WakeSender(q));
    case _ =>
      QueueStays(c, p, s);
      SameMessages(p, Next(c, p, s));
  }

  /** The bytes a receive returns are those of the message it took, cut to the caller's buffer. */
  lemma ReceivesWhatItTook(c: Config, p: Queue, t: Tid)
    requires Inv(c, p) && t in p.jobs && p.jobs[t].Reading?
    ensures Next(c, p, Read(t)).jobs[t] == Returning(p.jobs[t].node, Prefix(p.jobs[t].m.bytes, p.jobs[t].size))
  {
    assert JobOk(c, p, t);
  }

  /** No message is lost, doubled or made up: each accepted one is received, dropped by a reset or in the queue. */
  ghost predicate Balanced(p: Queue) {
    multiset(p.accepted) == multiset(p.taken) + multiset(p.dropped) + multiset(Messages(p))
  }

  lemma InsertAtBag<T>(xs: seq<T>, k: nat, x: T)
    requires k <= |xs|
    ensures multiset(InsertAt(xs, k, x)) == multiset(xs) + multiset{x}
  {
    assert xs == xs[..k] + xs[k..];
  }

  /** What a step adds to the record. */
  lemma Recorded(c: Config, p: Queue, s: Step)
    requires Inv(c, p) && StepOk(c, p, s)
    ensures var q := Next(c, p, s);
      && (!s.Link? ==> q.accepted == p.accepted)
      && q.taken == (if s.Take? && p.queue != [] then p.taken + [Messages(p)[0]] else p.taken)
      && q.dropped == (if s.Reset? then p.dropped + Messages(p) else p.dropped)
  {
    hide Inv, Reverse, Linked, Prefix, InsertAt, Without;
    if s.Link? {
      LinkedRecord(c, p, s.t);
    }
  }

  lemma LinkedRecord(c: Config, p: Queue, t: Tid)
    requires t in p.jobs && p.jobs[t].Filled?
    ensures var q := Next(c, p, Link(t)); q.taken == p.taken && q.dropped == p.dropped
  {
  }

  lemma DequeCases(c: Config, p: Queue, s: Step)
    requires Inv(c, p) && StepOk(c, p, s)
    ensures !s.Link? ==> Messages(Next(c, p, s)) ==
                         if s.Reset? then [] else if s.Take? && p.queue != [] then Messages(p)[1..] else Messages(p)
    ensures s.Link? && !c.priority && !p.jobs[s.t].urgent ==>
      Messages(Next(c, p, s)) == Messages(p) + [Stamped(c, p, p.jobs[s.t].node, p.jobs[s.t].m, false)]
  {
    RefinesDeque(c, p, s);
    if s.Link? {
      LinkedMessages(c, p, s.t);
    }
    hide Inv, Next, Reverse, Without;
  }

  lemma BagStep(acc: seq<Message>, taken: seq<Message>, dropped: seq<Message>, ms: seq<Message>)
    requires multiset(acc) == multiset(taken) + multiset(dropped) + multiset(ms)
    ensures multiset(acc) == multiset(taken) + multiset(dropped + ms)
    ensures ms != [] ==> multiset(acc) == multiset(taken + [ms[0]]) + multiset(dropped) + multiset(ms[1..])
  {
    if ms != [] {
      assert ms == [ms[0]] + ms[1..];
    }
  }

  lemma LinkBalanced(c: Config, p: Queue, t: Tid)
    requires Inv(c, p) && StepOk(c, p, Link(t)) && Balanced(p)
    ensures Balanced(Next(c, p, Link(t)))
  {
    var job, ms := p.jobs[t], Messages(p);
    RefinesDeque(c, p, Link(t));
    LinkedMessages(c, p, t);
    LinkedRecord(c, p, t);
    InsertAtBag(ms, LinkPoint(c, ms, job.m, job.urgent), Stamped(c, p, job.node, job.m, job.urgent));
    hide Inv, Next, Stamped, LinkPoint, InsertAt, Messages;
  }

  lemma NextBalanced(c: Config, p: Queue, s: Step)
    requires Inv(c, p) && StepOk(c, p, s) && Balanced(p)
    ensures Balanced(Next(c, p, s))
  {
    if s.Link? {
      LinkBalanced(c, p, s.t);
    } else {
      DequeCases(c, p, s);
      Recorded(c, p, s);
      BagStep(p.accepted, p.taken, p.dropped, Messages(p));
      hide Inv, Next, Messages, StepOk;
    }
  }

  predicate Plain(s: Step) {
    !s.Reset? && (s.CallSend? ==> !s.urgent)
  }

  /** No urgent send is under way. */
  ghost predicate NoneUrgent(p: Queue) {
    forall t {:trigger p.jobs[t]} :: t in p.jobs ==> NotUrgent(p.jobs[t])
  }

  predicate NotUrgent(j: Job) {
    match j
    case Sending(_, urgent, _) => !urgent
    case Filling(_, _, urgent) => !urgent
    case Filled(_, _, urgent) => !urgent
    case _ => true
  }

  /** First in, first out, in the order of the second critical sections of the sends and the first of the receives. */
  ghost predicate InOrder(p: Queue) {
    p.accepted == p.taken + Messages(p)
  }

  lemma DismissedPlain(c: Config, p: Queue, s: Step)
    requires Dismisses(s) && NoneUrgent(p)
    ensures NoneUrgent(Next(c, p, s))
  {
    var q := Next(c, p, s);
    hide Messages, Reverse;
    forall t | t in q.jobs
      ensures NotUrgent(q.jobs[t])
    {
      assert NotUrgent(p.jobs[t]);
    }
  }

  lemma WakersPlain(p: Queue)
    requires NoneUrgent(p)
    ensures NoneUrgent(WakeReceiver(p)) && NoneUrgent(WakeSender(p))
  {
  }

  /** All but a waking step change one job. */
  lemma CallJob(c: Config, p: Queue, s: Step) returns (j: Job)
    requires StepOk(c, p, s) && !Dismisses(s) && !s.Link? && !s.GiveBack?
    ensures Next(c, p, s).jobs == p.jobs[s.t := j]
    ensures Plain(s) && NotUrgent(p.jobs[s.t]) ==> NotUrgent(j)
  {
    hide InsertAt, Without, Prefix, TextOf, Pos;
    match s
    case CallSend(t, m, urgent) => j := if |m.bytes| > c.msgSize then Done(-ERROR) else Sending(m, urgent, false);
    case Reserve(t, wait, pos) =>
      var job := p.jobs[t];
      j := if p.freed != [] then Filling(p.freed[0], job.m, job.urgent)
           else if job.urgent || !wait then Done(-EFULL) else SendWaits(job.m);
    case Fill(t) => j := Filled(p.jobs[t].node, p.jobs[t].m, p.jobs[t].urgent);
    case CallRecv(t, size) => j := Receiving(size, false);
    case Take(t, wait, pos) =>
      var size := p.jobs[t].size;
      j := if p.queue != [] then Reading(p.queue[0], size, TextOf(p, p.queue[0]))
           else if !wait then Done(-ETIMEOUT) else RecvWaits(size);
    case Read(t) => j := Returning(p.jobs[t].node, Prefix(TextOf(p, p.jobs[t].node).bytes, p.jobs[t].size));
    case Expire(t, code) => j := Done(code);
  }

  lemma CallPlain(c: Config, p: Queue, s: Step)
    requires StepOk(c, p, s) && Plain(s) && !Dismisses(s) && !s.Link? && !s.GiveBack? && NoneUrgent(p)
    ensures NoneUrgent(Next(c, p, s))
  {
    var j := CallJob(c, p, s);
    hide Next, NotUrgent;
  }

  lemma StaysPlain(c: Config, p: Queue, s: Step)
    requires StepOk(c, p, s) && Plain(s) && NoneUrgent(p)
    ensures NoneUrgent(Next(c, p, s))
  {
    if Dismisses(s) {
      DismissedPlain(c, p, s);
    } else if s.Link? {
      var q := Linked(c, p, s.t, p.jobs[s.t].node, p.jobs[s.t].m, p.jobs[s.t].urgent);
      WakersPlain(q) by {
        hide InsertAt, LinkPoint, Messages, Stamped;
      }
      hide NoneUrgent, Linked;
    } else if s.GiveBack? {
      var q := Given(p, s.t, p.jobs[s.t].node, p.jobs[s.t].bytes);
      WakersPlain(q);
      hide NoneUrgent, Given;
    } else {
      CallPlain(c, p, s);
    }
  }

  lemma LinkInOrder(c: Config, p: Queue, t: Tid)
    requires Inv(c, p) && StepOk(c, p, Link(t)) && NoneUrgent(p) && InOrder(p) && !c.priority
    ensures InOrder(Next(c, p, Link(t)))
  {
    assert NotUrgent(p.jobs[t]);
    DequeCases(c, p, Link(t));
    LinkedMessages(c, p, t);
    LinkedRecord(c, p, t);
    hide Inv, Next, Messages, Stamped, NoneUrgent;
  }

  lemma NextInOrder(c: Config, p: Queue, s: Step)
    requires Inv(c, p) && StepOk(c, p, s) && Plain(s) && NoneUrgent(p) && InOrder(p) && !c.priority
    ensures InOrder(Next(c, p, s))
  {
    if s.Link? {
      LinkInOrder(c, p, s.t);
    } else {
      DequeCases(c, p, s);
      Recorded(c, p, s);
      TakeFront(p.taken, Messages(p));
      hide Inv, Next, Messages, StepOk, NoneUrgent;
    }
  }

  lemma TakeFront(taken: seq<Message>, ms: seq<Message>)
    ensures ms != [] ==> taken + ms == taken + [ms[0]] + ms[1..]
  {
  }

  /** The messages are in the order of their priority. */
  ghost predicate ByPriority(ms: seq<Message>) {
    forall i, j :: 0 <= i < j < |ms| ==> ms[i].prio >= ms[j].prio
  }

  /** In priority mode the queue stays sorted, each message behind all that are not less urgent. */
  lemma NextByPriority(c: Config, p: Queue, s: Step)
    requires Inv(c, p) && StepOk(c, p, s) && Plain(s) && NoneUrgent(p) && c.priority && ByPriority(Messages(p))
    ensures ByPriority(Messages(Next(c, p, s)))
  {
    RefinesDeque(c, p, s);
    match s
    case Link(t) =>
      assert NotUrgent(p.jobs[t]) && JobOk(c, p, t);
      InsertByPriority(Messages(p), Message(p.jobs[t].m.bytes, p.jobs[t].m.prio));
    case _ =>
  }

  lemma InsertByPriority(ms: seq<Message>, m: Message)
    requires ByPriority(ms)
    ensures ByPriority(InsertAt(ms, PriorityPoint(ms, m.prio), m))
  {
    var k := PriorityPoint(ms, m.prio);
    var r := InsertAt(ms, k, m);
    forall i, j | 0 <= i < j < |r|
      ensures r[i].prio >= r[j].prio
    {
      assert i != k ==> r[i] == ms[if i < k then i else i - 1];
      assert j != k ==> r[j] == ms[if j < k then j else j - 1];
    }
  }

  function IfPriority(m: Message, k: int): seq<Message> {
    if m.prio == k then [m] else []
  }

  /** The messages of priority `k`, in order. */
  function OfPriority(ms: seq<Message>, k: int): seq<Message> {
    if ms == [] then [] else IfPriority(ms[0], k) + OfPriority(ms[1..], k)
  }

  lemma {:induction false} OfPriorityAppend(xs: seq<Message>, ys: seq<Message>, k: int)
    ensures OfPriority(xs + ys, k) == OfPriority(xs, k) + OfPriority(ys, k)
  {
    hide IfPriority;
    if xs == [] {
      assert xs + ys == ys;
    } else {
      OfPriorityAppend(xs[1..], ys, k);
      assert (xs + ys)[0] == xs[0] && (xs + ys)[1..] == xs[1..] + ys;
    }
  }

  lemma {:induction false} NoneOfPriority(ms: seq<Message>, k: int)
    requires forall i :: 0 <= i < |ms| ==> ms[i].prio != k
    ensures OfPriority(ms, k) == []
  {
    if ms != [] {
      NoneOfPriority(ms[1..], k);
    }
  }

  lemma OfPriorityOne(m: Message, k: int)
    ensures OfPriority([m], k) == IfPriority(m, k)
  {
    hide IfPriority;
    assert [m][1..] == [];
  }

  lemma Behind<T>(a: seq<T>, m: seq<T>, b: seq<T>)
    requires m == [] || b == []
    ensures a + (m + b) == a + b + m
  {
  }

  /** For its own priority, a message goes behind all others. */
  lemma InsertOfPriority(ms: seq<Message>, m: Message, k: int)
    requires ByPriority(ms)
    ensures OfPriority(InsertAt(ms, PriorityPoint(ms, m.prio), m), k) == OfPriority(ms, k) + IfPriority(m, k)
  {
    var n := PriorityPoint(ms, m.prio);
    LessUrgentBehind(ms, m, k);
    Behind(OfPriority(ms[..n], k), IfPriority(m, k), OfPriority(ms[n..], k));
    hide *;
    InsertAtSplits(ms, n, m);
    OfPriorityAppend(ms[..n], [m] + ms[n..], k);
    OfPriorityAppend([m], ms[n..], k);
    OfPriorityAppend(ms[..n], ms[n..], k);
    OfPriorityOne(m, k);
  }

  lemma InsertAtSplits<T>(xs: seq<T>, n: nat, x: T)
    requires n <= |xs|
    ensures InsertAt(xs, n, x) == xs[..n] + ([x] + xs[n..]) && xs == xs[..n] + xs[n..]
  {
  }

  lemma LessUrgentBehind(ms: seq<Message>, m: Message, k: int)
    requires ByPriority(ms)
    ensures k == m.prio ==> OfPriority(ms[PriorityPoint(ms, m.prio)..], k) == []
  {
    var n := PriorityPoint(ms, m.prio);
    if k == m.prio {
      forall i | 0 <= i < |ms[n..]|
        ensures ms[n..][i].prio != k
      {
        assert ms[n..][i] == ms[n + i];
      }
      NoneOfPriority(ms[n..], k);
    }
  }

  /** First in, first out among the messages of each priority. */
  ghost predicate InOrderEach(p: Queue) {
    forall k: int :: InOrderAt(p, k)
  }

  ghost predicate InOrderAt(p: Queue, k: int) {
    OfPriority(p.accepted, k) == OfPriority(p.taken, k) + OfPriority(Messages(p), k)
  }

  lemma LinkInOrderAt(c: Config, p: Queue, t: Tid, k: int)
    requires Inv(c, p) && StepOk(c, p, Link(t)) && NoneUrgent(p) && c.priority && ByPriority(Messages(p)) && InOrderAt(p, k)
    ensures InOrderAt(Next(c, p, Link(t)), k)
  {
    var m := p.jobs[t].m;
    LinkedByPriority(c, p, t);
    LinkOfPriority(p.accepted, p.taken, Messages(p), m, k);
    hide Inv, Next, Messages, NoneUrgent, PriorityPoint, InsertAt, OfPriority, IfPriority, StepOk, ByPriority;
  }

  lemma LinkOfPriority(accepted: seq<Message>, taken: seq<Message>, ms: seq<Message>, m: Message, k: int)
    requires ByPriority(ms) && OfPriority(accepted, k) == OfPriority(taken, k) + OfPriority(ms, k)
    ensures OfPriority(accepted + [m], k) == OfPriority(taken, k) + OfPriority(InsertAt(ms, PriorityPoint(ms, m.prio), m), k)
  {
    hide *;
    InsertOfPriority(ms, m, k);
    OfPriorityAppend(accepted, [m], k);
    OfPriorityOne(m, k);
  }

  /** In priority mode, a message that is not urgent is queued as it was given. */
  lemma LinkedByPriority(c: Config, p: Queue, t: Tid)
    requires Inv(c, p) && StepOk(c, p, Link(t)) && NoneUrgent(p) && c.priority
    ensures var q, m := Next(c, p, Link(t)), p.jobs[t].m;
      && Messages(q) == InsertAt(Messages(p), PriorityPoint(Messages(p), m.prio), m)
      && q.accepted == p.accepted + [m] && q.taken == p.taken
  {
    assert NotUrgent(p.jobs[t]);
    LinkedMessages(c, p, t);
    LinkedRecord(c, p, t);
    hide Inv, Next, Messages, PriorityPoint, InsertAt, NoneUrgent;
    assert Stamped(c, p, p.jobs[t].node, p.jobs[t].m, false) == p.jobs[t].m;
  }

  lemma NextInOrderAt(c: Config, p: Queue, s: Step, k: int)
    requires Inv(c, p) && StepOk(c, p, s) && Plain(s) && NoneUrgent(p) && c.priority && ByPriority(Messages(p)) && InOrderAt(p, k)
    ensures InOrderAt(Next(c, p, s), k)
  {
    if s.Link? {
      LinkInOrderAt(c, p, s.t, k);
    } else {
      DequeCases(c, p, s);
      Recorded(c, p, s);
      TakeOfPriority(p.taken, Messages(p), k);
      hide Inv, Next, Messages, StepOk, NoneUrgent, OfPriority, ByPriority;
    }
  }

  lemma TakeOfPriority(taken: seq<Message>, ms: seq<Message>, k: int)
    ensures ms != [] ==>
      OfPriority(taken + [ms[0]], k) + OfPriority(ms[1..], k) == OfPriority(taken, k) + OfPriority(ms, k)
  {
    if ms != [] {
      assert OfPriority(ms, k) == IfPriority(ms[0], k) + OfPriority(ms[1..], k);
      hide *;
      OfPriorityOne(ms[0], k);
      OfPriorityAppend(taken, [ms[0]], k);
    }
  }

  function Start(c: Config, threads: set<Tid>): Queue {
    Queue([], seq(c.maxMsgs, i requires 0 <= i < c.maxMsgs => c.maxMsgs - 1 - i), map[],
          map n | n in Upto(c.maxMsgs) :: Message([], 0), map t | t in threads :: Done(0),
          [], [], [], [], [], true)
  }

  lemma StartOk(c: Config, threads: set<Tid>)
    ensures Inv(c, Start(c, threads)) && NoneUrgent(Start(c, threads))
    ensures Messages(Start(c, threads)) == []
  {
    var p := Start(c, threads);
    forall n: nat
      ensures PlaceOk(c, p, n)
    {
      if n < c.maxMsgs {
        assert p.freed[c.maxMsgs - 1 - n] == n;
      }
    }
    forall t | t in p.jobs
      ensures JobOk(c, p, t)
    {
    }
  }

  /** The runs below may begin with the queue as it is initialized. */
  lemma StartInOrder(c: Config, threads: set<Tid>)
    ensures var p := Start(c, threads); InOrder(p) && InOrderEach(p) && Balanced(p) && ByPriority(Messages(p))
  {
  }

  /** In FIFO mode, without urgent sends and resets: over every interleaving, receives take what sends put in, in order. */
  lemma {:induction false} RunInOrder(c: Config, p: Queue, ss: seq<Step>)
    requires Inv(c, p) && RunOk(c, p, ss) && NoneUrgent(p) && InOrder(p) && !c.priority
    requires forall i :: 0 <= i < |ss| ==> Plain(ss[i])
    ensures InOrder(Run(c, p, ss))
    decreases |ss|
  {
    if ss != [] {
      NextKeeps(c, p, ss[0]);
      StaysPlain(c, p, ss[0]);
      NextInOrder(c, p, ss[0]);
      RunInOrder(c, Next(c, p, ss[0]), ss[1..]);
    }
  }

  /**
   In priority mode, without urgent sends and resets: over every interleaving the queue stays sorted, so that receives
   take a most urgent message, and of each priority they take what sends put in, in order.
   */
  lemma {:induction false} RunByPriority(c: Config, p: Queue, ss: seq<Step>)
    requires Inv(c, p) && RunOk(c, p, ss) && NoneUrgent(p) && c.priority && ByPriority(Messages(p)) && InOrderEach(p)
    requires forall i :: 0 <= i < |ss| ==> Plain(ss[i])
    ensures ByPriority(Messages(Run(c, p, ss))) && InOrderEach(Run(c, p, ss))
    decreases |ss|
  {
    hide Inv, NoneUrgent, ByPriority, InOrderAt;
    if ss != [] {
      NextKeeps(c, p, ss[0]);
      StaysPlain(c, p, ss[0]);
      NextByPriority(c, p, ss[0]);
      forall k: int
        ensures InOrderAt(Next(c, p, ss[0]), k)
      {
        assert InOrderAt(p, k);
        NextInOrderAt(c, p, ss[0], k);
      }
      RunByPriority(c, Next(c, p, ss[0]), ss[1..]);
    }
  }

  /** Over every interleaving of sends, urgent sends, receives, timeouts and resets, in either mode. */
  lemma {:induction false} RunBalanced(c: Config, p: Queue, ss: seq<Step>)
    requires Inv(c, p) && RunOk(c, p, ss) && Balanced(p)
    ensures Balanced(Run(c, p, ss))
    decreases |ss|
  {
    hide Balanced, Inv;
    if ss != [] {
      NextKeeps(c, p, ss[0]);
      NextBalanced(c, p, ss[0]);
      RunBalanced(c, Next(c, p, ss[0]), ss[1..]);
    }
  }

  lemma DisjointCount(q: set<nat>, f: set<nat>, h: set<nat>)
    requires q !! f && q !! h && f !! h
    ensures |q + f + h| == |q| + |f| + |h|
  {
  }

  lemma PlacesAsSets(c: Config, p: Queue)
    requires Places(c, p)
    ensures Upto(c.maxMsgs) == Elems(p.queue) + Elems(p.freed) + p.holder.Keys
    ensures Elems(p.queue) !! Elems(p.freed) && Elems(p.queue) !! p.holder.Keys && Elems(p.freed) !! p.holder.Keys
  {
    var u, q, f, h := Upto(c.maxMsgs), Elems(p.queue), Elems(p.freed), p.holder.Keys;
    forall n: nat
      ensures InOne(u, q, f, h, n)
    {
      assert PlaceOk(c, p, n);
    }
    OneOfThree(u, q, f, h);
  }

  ghost predicate InOne(u: set<nat>, q: set<nat>, f: set<nat>, h: set<nat>, n: nat) {
    && (n in u <==> n in q || n in f || n in h)
    && !(n in q && n in f) && !(n in h && n in q) && !(n in h && n in f)
  }

  lemma OneOfThree(u: set<nat>, q: set<nat>, f: set<nat>, h: set<nat>)
    requires forall n: nat :: InOne(u, q, f, h, n)
    ensures u == q + f + h && q !! f && q !! h && f !! h
  {
    forall n: nat
      ensures n in u <==> n in q || n in f || n in h
      ensures !(n in q && n in f) && !(n in h && n in q) && !(n in h && n in f)
    {
      assert InOne(u, q, f, h, n);
    }
  }

  /** The nodes are conserved: queued, free and in flight together are the pool. */
  lemma PoolConserved(c: Config, p: Queue)
    requires Inv(c, p)
    ensures |p.queue| + |p.freed| + |p.holder| == c.maxMsgs
  {
    DistinctCount(p.queue);
    DistinctCount(p.freed);
    PlacesAsSets(c, p);
    hide Inv, Distinct, Elems;
    DisjointCount(Elems(p.queue), Elems(p.freed), p.holder.Keys);
  }

  /** A send that links its node never finds the counter full: the overflow branch is dead. */
  lemma NeverOverflows(c: Config, p: Queue, t: Tid)
    requires Inv(c, p) && t in p.jobs && p.jobs[t].Filled?
    ensures |p.queue| < c.maxMsgs
  {
    PoolConserved(c, p);
    assert JobOk(c, p, t);
    assert p.jobs[t].node in p.holder.Keys;
  }

  // ----- what a receive returns

  /** Thread `t` is in a receive into a buffer of `size` bytes, and has taken message `got`, if any. */
  ghost predicate InReceive(j: Job, size: nat, got: Option<Message>) {
    match j
    case Receiving(n, _) => n == size && got == None
    case RecvWaits(n) => n == size && got == None
    case Reading(_, n, m) => n == size && got == Some(m)
    case Returning(_, bytes) => got.Some? && bytes == Prefix(got.value.bytes, size)
    case _ => false
  }

  /** The message that step `s` takes for `t`. */
  function TakenBy(p: Queue, s: Step, t: Tid): Option<Message> {
    if s.Take? && s.t == t && t in p.jobs && p.jobs[t].Receiving? && p.queue != [] then Some(TextOf(p, p.queue[0])) else None
  }

  /** What one step does to a thread in a receive: it goes on, or it ends with the length, or with an error. */
  ghost predicate Continues(c: Config, p: Queue, s: Step, t: Tid, size: nat, got: Option<Message>) {
    var q := Next(c, p, s);
    && t in p.jobs && t in q.jobs
    && if q.jobs[t].Done? then
         if got.Some? then p.jobs[t].Returning? && !Dismisses(s) && q.jobs[t].code == |Prefix(got.value.bytes, size)| > 0
         else if Dismisses(s) then q.jobs[t].code == ERROR
         else q.jobs[t].code < 0 && TakenBy(p, s, t) == None
       else InReceive(q.jobs[t], size, if got.Some? then got else TakenBy(p, s, t))
  }

  lemma OwnStep(c: Config, p: Queue, s: Step, t: Tid, size: nat, got: Option<Message>)
    requires Inv(c, p) && StepOk(c, p, s) && t in p.jobs && InReceive(p.jobs[t], size, got) && !Dismisses(s) && s.t == t
    ensures Continues(c, p, s, t, size, got)
  {
    assert JobOk(c, p, t);
    if s.GiveBack? {
      GivenPlaces(c, p, t);
      WokenJob(c, Given(p, t, p.jobs[t].node, p.jobs[t].bytes), t);
      hide WakeSender;
    }
    hide Inv, Jobs, InsertAt, Reverse, Without, Stamped, LinkPoint, Messages, Linked, WakeReceiver, Pos;
    match s
    case Take(_, wait, pos) =>
    case Read(_) =>
    case GiveBack(_) =>
    case Expire(_, code) =>
  }

  /** A job that a step of another thread leaves alone or wakes. */
  predicate Wakes(j: Job, j': Job) {
    j' == j || (j.RecvWaits? && j' == Receiving(j.size, true)) || (j.SendWaits? && j' == Sending(j.m, false, true))
  }

  lemma WokenJob(c: Config, p: Queue, t: Tid)
    requires Jobs(c, p) && t in p.jobs
    ensures t in WakeReceiver(p).jobs && t in WakeSender(p).jobs
    ensures Wakes(p.jobs[t], WakeReceiver(p).jobs[t]) && Wakes(p.jobs[t], WakeSender(p).jobs[t])
  {
    assert JobOk(c, p, t);
  }

  /** A step of another thread can only wake `t`. */
  lemma OtherJob(c: Config, p: Queue, s: Step, t: Tid)
    requires Inv(c, p) && StepOk(c, p, s) && t in p.jobs && !Dismisses(s) && s.t != t
    ensures t in Next(c, p, s).jobs && Wakes(p.jobs[t], Next(c, p, s).jobs[t])
  {
    hide Jobs, WakeReceiver, WakeSender, InsertAt, Without, Stamped, LinkPoint, Messages, Prefix, Distinct;
    if s.Link? {
      LinkedJobs(c, p, s.t);
      WokenJob(c, Linked(c, p, s.t, p.jobs[s.t].node, p.jobs[s.t].m, p.jobs[s.t].urgent), t);
    } else if s.GiveBack? {
      GivenPlaces(c, p, s.t);
      WokenJob(c, Given(p, s.t, p.jobs[s.t].node, p.jobs[s.t].bytes), t);
    }
  }

  lemma OthersStep(c: Config, p: Queue, s: Step, t: Tid, size: nat, got: Option<Message>)
    requires Inv(c, p) && StepOk(c, p, s) && t in p.jobs && InReceive(p.jobs[t], size, got) && !Dismisses(s) && s.t != t
    ensures Continues(c, p, s, t, size, got)
  {
    OtherJob(c, p, s, t);
    hide Inv, Next, StepOk, Prefix;
  }

  lemma DismissalStep(c: Config, p: Queue, s: Step, t: Tid, size: nat, got: Option<Message>)
    requires t in p.jobs && InReceive(p.jobs[t], size, got) && Dismisses(s)
    ensures Continues(c, p, s, t, size, got)
  {
    hide Prefix, Messages, Reverse;
  }

  lemma ReceiveStep(c: Config, p: Queue, s: Step, t: Tid, size: nat, got: Option<Message>)
    requires Inv(c, p) && StepOk(c, p, s) && t in p.jobs && InReceive(p.jobs[t], size, got)
    ensures Continues(c, p, s, t, size, got)
  {
    if Dismisses(s) {
      DismissalStep(c, p, s, t, size, got);
    } else if s.t == t {
      OwnStep(c, p, s, t, size, got);
    } else {
      OthersStep(c, p, s, t, size, got);
    }
  }

  /**
   A receive turns positive in one step exactly in two ways: it gives its node back, and the result is the length
   of what it read; or a reset or detach ends its wait.
   */
  lemma PositiveIsLengthIff(c: Config, p: Queue, s: Step, t: Tid)
    requires Inv(c, p) && StepOk(c, p, s) && t in p.jobs
    requires p.jobs[t].Receiving? || p.jobs[t].RecvWaits? || p.jobs[t].Reading? || p.jobs[t].Returning?
    requires t in Next(c, p, s).jobs && Next(c, p, s).jobs[t].Done? && Next(c, p, s).jobs[t].code > 0
    ensures p.jobs[t].Returning? && Next(c, p, s).jobs[t].code == |p.jobs[t].bytes| <==> !Dismisses(s)
  {
    assert JobOk(c, p, t);
    match p.jobs[t]
    case Receiving(size, _) => ReceiveStep(c, p, s, t, size, None);
    case RecvWaits(size) => ReceiveStep(c, p, s, t, size, None);
    case Reading(_, size, m) => ReceiveStep(c, p, s, t, size, Some(m));
    case Returning(_, bytes) =>
      assert Prefix(bytes, |bytes|) == bytes;
      ReceiveStep(c, p, s, t, |bytes|, Some(Message(bytes, 0)));
  }

  /** How a run ends for a thread in a receive that has taken `got`: its result, if it ends, and the message it took. */
  function Ending(c: Config, p: Queue, ss: seq<Step>, t: Tid, got: Option<Message>): (Option<int>, Option<Message>)
    decreases |ss|
  {
    if ss == [] then (None, got)
    else
      var q, got' := Next(c, p, ss[0]), if got.Some? then got else TakenBy(p, ss[0], t);
      if t in q.jobs && q.jobs[t].Done? then (Some(q.jobs[t].code), got') else Ending(c, q, ss[1..], t, got')
  }

  /**
   Over every run, a receive that has taken a message ends with its length, cut to the buffer, which is positive; one
   that has taken none ends negative, or with `ERROR` by a reset or detach. So a positive result is a length in every
   run without these two.
   */
  lemma {:induction false} PositiveIffTaken(c: Config, p: Queue, ss: seq<Step>, t: Tid, size: nat, got: Option<Message>)
    requires Inv(c, p) && RunOk(c, p, ss) && t in p.jobs && InReceive(p.jobs[t], size, got)
    ensures var (code, m) := Ending(c, p, ss, t, got);
      && (code.Some? && m.Some? ==> code.value == |Prefix(m.value.bytes, size)| > 0)
      && (code.Some? && m.None? ==> code.value < 0 || (code.value == ERROR && exists i :: 0 <= i < |ss| && Dismisses(ss[i])))
    ensures (forall i :: 0 <= i < |ss| ==> !Dismisses(ss[i])) ==>
      var (code, m) := Ending(c, p, ss, t, got);
      code.Some? ==> (code.value > 0 <==> m.Some?)
    decreases |ss|
  {
    if ss != [] {
      var q, got' := Next(c, p, ss[0]), if got.Some? then got else TakenBy(p, ss[0], t);
      ReceiveStep(c, p, ss[0], t, size, got);
      NextKeeps(c, p, ss[0]);
      hide Inv, Next, StepOk, Prefix, TakenBy, InReceive;
      if !q.jobs[t].Done? {
        PositiveIffTaken(c, q, ss[1..], t, size, got');
        assert forall i :: 0 <= i < |ss| - 1 ==> ss[1..][i] == ss[i + 1];
      } else if Dismisses(ss[0]) {
        assert Dismisses(ss[0]);
      }
    }
  }

  lemma RunOfThree(c: Config, p: Queue, a: Step, b: Step, d: Step)
    requires StepOk(c, p, a) && StepOk(c, Next(c, p, a), b) && StepOk(c, Next(c, Next(c, p, a), b), d)
    ensures RunOk(c, p, [a, b, d]) && Run(c, p, [a, b, d]) == Next(c, Next(c, Next(c, p, a), b), d)
  {
    hide Next, StepOk;
    var p1, p2 := Next(c, p, a), Next(c, Next(c, p, a), b);
    assert [a, b, d][1..] == [b, d] && [b, d][1..] == [d] && [d][1..] == [];
    assert RunOk(c, Next(c, p2, d), []);
    assert RunOk(c, p2, [d]) && RunOk(c, p1, [b, d]);
    assert Run(c, p2, [d]) == Next(c, p2, d) == Run(c, p1, [b, d]);
  }

  /** Thread `t` alone is there, and no message ever was. */
  ghost predicate Alone(p: Queue, t: Tid, j: Job) {
    p.jobs == map[t := j] && p.queue == [] && p.accepted == [] && p.taken == []
  }

  lemma WaitAlone(c: Config, p: Queue, t: Tid, size: nat)
    requires Alone(p, t, Receiving(size, false))
    ensures Alone(Next(c, p, Take(t, true, 0)), t, RecvWaits(size)) && Next(c, p, Take(t, true, 0)).live == p.live
  {
    hide InsertAt, Messages;
  }

  lemma DismissAlone(c: Config, p: Queue, t: Tid, size: nat, s: Step)
    requires Alone(p, t, RecvWaits(size)) && Dismisses(s)
    ensures Alone(Next(c, p, s), t, Done(ERROR))
  {
    hide Messages, Reverse;
    assert Next(c, p, s).jobs.Keys == {t};
  }

  /**
   A run from the start in which a receive ends positive although no message was ever accepted: it waits, and the
   queue is reset, detached or deleted.
   */
  lemma ErrorLooksLikeAMessage(c: Config, t: Tid, size: nat, last: Step)
    requires size > 0 && Dismisses(last)
    ensures var p, ss := Start(c, {t}), [CallRecv(t, size), Take(t, true, 0), last];
      RunOk(c, p, ss) && Alone(Run(c, p, ss), t, Done(ERROR)) && ERROR > 0
  {
    var p := Start(c, {t});
    assert Alone(p, t, Done(0));
    var p1 := Next(c, p, CallRecv(t, size));
    assert Alone(p1, t, Receiving(size, false)) && p1.live;
    WaitAlone(c, p1, t, size);
    DismissAlone(c, Next(c, p1, Take(t, true, 0)), t, size, last);
    hide Next, Start;
    RunOfThree(c, p, CallRecv(t, size), Take(t, true, 0), last);
  }
}
