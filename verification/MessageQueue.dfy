/**
 The message queue of `src/ipc.c` in its own form: message nodes linked by pointers, a head, a tail and
 a free list, each critical section a method. Every method does the step of `MessageProtocol` it stands for.
 */
module MessageQueue {
  import opened Wrappers
  import opened Sequences
  import opened MessageProtocol

  type Link = Option<Node>

  /** Element `i` of a chain of nodes points to the next, the last to nothing. */
  ghost predicate LinkOk(next: map<Node, Link>, xs: seq<Node>, i: nat) {
    i < |xs| ==> xs[i] in next && next[xs[i]] == if i + 1 < |xs| then Some(xs[i + 1]) else None
  }

  function First(xs: seq<Node>): Link {
    if xs == [] then None else Some(xs[0])
  }

  function Last(xs: seq<Node>): Link {
    if xs == [] then None else Some(xs[|xs| - 1])
  }

  ghost predicate Chain(next: map<Node, Link>, head: Link, xs: seq<Node>) {
    head == First(xs) && forall i: nat {:trigger LinkOk(next, xs, i)} :: LinkOk(next, xs, i)
  }

  lemma ChainFrame(next: map<Node, Link>, next': map<Node, Link>, head: Link, xs: seq<Node>)
    requires Chain(next, head, xs)
    requires forall n :: n in xs ==> n in next && n in next' && next'[n] == next[n]
    ensures Chain(next', head, xs)
  {
    forall i: nat
      ensures LinkOk(next', xs, i)
    {
      assert LinkOk(next, xs, i);
      assert i < |xs| ==> xs[i] in xs;
    }
  }

  lemma ChainDomain(next: map<Node, Link>, head: Link, xs: seq<Node>)
    requires Chain(next, head, xs)
    ensures forall n :: n in xs ==> n in next
  {
    forall n | n in xs
      ensures n in next
    {
      var i :| 0 <= i < |xs| && xs[i] == n;
      assert LinkOk(next, xs, i);
    }
  }

  lemma ChainTail(next: map<Node, Link>, head: Link, xs: seq<Node>)
    requires Chain(next, head, xs) && xs != []
    ensures xs[0] in next && Chain(next, next[xs[0]], xs[1..])
  {
    assert LinkOk(next, xs, 0);
    forall i: nat
      ensures LinkOk(next, xs[1..], i)
    {
      assert LinkOk(next, xs, i + 1);
    }
  }

  /** Linking a node in front of a chain. */
  lemma ChainPush(next: map<Node, Link>, head: Link, xs: seq<Node>, n: Node)
    requires Chain(next, head, xs) && n !in xs
    ensures Chain(next[n := head], Some(n), [n] + xs)
  {
    var next', ys := next[n := head], [n] + xs;
    forall i: nat
      ensures LinkOk(next', ys, i)
    {
      if 0 < i < |ys| {
        assert LinkOk(next, xs, i - 1);
        assert ys[i] == xs[i - 1] && xs[i - 1] in xs;
      }
    }
  }

  /** Linking a node into a chain behind the first `k` of its nodes, `k > 0`. */
  lemma ChainInsert(next: map<Node, Link>, head: Link, xs: seq<Node>, k: nat, n: Node)
    requires Chain(next, head, xs) && Distinct(xs) && n !in xs && 0 < k <= |xs|
    ensures Chain(next[xs[k - 1] := Some(n)][n := if k < |xs| then Some(xs[k]) else None], head, InsertAt(xs, k, n))
  {
    var next', ys := next[xs[k - 1] := Some(n)][n := if k < |xs| then Some(xs[k]) else None], InsertAt(xs, k, n);
    forall i: nat
      ensures LinkOk(next', ys, i)
    {
      if i < k {
        assert LinkOk(next, xs, i);
        assert ys[i] == xs[i] && xs[i] in xs;
      } else if k < i < |ys| {
        assert LinkOk(next, xs, i - 1);
        assert ys[i] == xs[i - 1] && xs[i - 1] in xs;
      }
    }
  }

  lemma ChainEnd(next: map<Node, Link>, head: Link, xs: seq<Node>, n: Node)
    requires Chain(next, head, xs) && Distinct(xs) && n !in xs && xs != [] && n in next && next[n] == None
    ensures xs[|xs| - 1] in next && Chain(next[xs[|xs| - 1] := Some(n)], head, InsertAt(xs, |xs|, n))
  {
    ChainDomain(next, head, xs);
    ChainInsert(next, head, xs, |xs|, n);
    assert next[xs[|xs| - 1] := Some(n)] == next[xs[|xs| - 1] := Some(n)][n := None];
  }

  lemma ChainBefore(next: map<Node, Link>, head: Link, xs: seq<Node>, k: nat, n: Node)
    requires Chain(next, head, xs) && Distinct(xs) && n !in xs && k < |xs|
    ensures Chain((if k == 0 then next else next[xs[k - 1] := Some(n)])[n := Some(xs[k])], if k == 0 then Some(n) else head, InsertAt(xs, k, n))
  {
    if k == 0 {
      ChainPush(next, head, xs, n);
      assert InsertAt(xs, 0, n) == [n] + xs;
    } else {
      ChainInsert(next, head, xs, k, n);
    }
  }

  lemma ChainStep(next: map<Node, Link>, head: Link, xs: seq<Node>, k: nat)
    requires Chain(next, head, xs) && k < |xs|
    ensures xs[k] in next && next[xs[k]] == if k + 1 < |xs| then Some(xs[k + 1]) else None
  {
    assert LinkOk(next, xs, k);
  }

  /** The head, the tail and the links between hold the nodes `xs` in order. */
  ghost predicate Lists(next: map<Node, Link>, head: Link, tail: Link, free: Link, p: Queue) {
    Chain(next, head, p.queue) && tail == Last(p.queue) && Chain(next, free, p.freed)
  }

  /** The text of a node is in its length and area fields. */
  ghost predicate AreaOk(c: Config, length: map<Node, nat>, area: map<Node, seq<Byte>>, prio: map<Node, int>, text: map<Node, Message>, n: Node) {
    && n in length && n in area && n in prio && n in text
    && |area[n]| == c.msgSize && length[n] <= c.msgSize
    && text[n] == Message(area[n][..length[n]], prio[n])
  }

  ghost predicate Areas(c: Config, length: map<Node, nat>, area: map<Node, seq<Byte>>, prio: map<Node, int>, text: map<Node, Message>) {
    forall n: nat {:trigger AreaOk(c, length, area, prio, text, n)} :: n < c.maxMsgs ==> AreaOk(c, length, area, prio, text, n)
  }

  /** A filled node that is to be the last of the queue already points to nothing. */
  ghost predicate Ended(next: map<Node, Link>, p: Queue, t: Tid) {
    t in p.jobs && p.jobs[t].Filled? && !p.jobs[t].urgent ==> p.jobs[t].node in next && next[p.jobs[t].node] == None
  }

  ghost predicate AllEnded(next: map<Node, Link>, p: Queue) {
    forall t {:trigger Ended(next, p, t)} :: Ended(next, p, t)
  }

  // ----- what is apart

  lemma Apart(c: Config, p: Queue)
    requires Inv(c, p)
    ensures forall n :: n in p.queue ==> n !in p.freed && n < c.maxMsgs
    ensures forall n :: n in p.freed ==> n !in p.queue && n < c.maxMsgs
    ensures forall n :: n in p.holder ==> n !in p.queue && n !in p.freed && n < c.maxMsgs
  {
    forall n: nat
      ensures n in p.queue ==> n !in p.freed && n < c.maxMsgs
      ensures n in p.freed ==> n !in p.queue && n < c.maxMsgs
      ensures n in p.holder ==> n !in p.queue && n !in p.freed && n < c.maxMsgs
    {
      assert PlaceOk(c, p, n);
    }
  }

  lemma HolderOf(c: Config, p: Queue, t: Tid)
    requires Inv(c, p) && t in p.jobs && Held(p.jobs[t]).Some?
    ensures var n := Held(p.jobs[t]).value; n in p.holder && p.holder[n] == t && n < c.maxMsgs && n !in p.queue && n !in p.freed
  {
    assert JobOk(c, p, t);
    Apart(c, p);
  }

  /** A step of thread `t` that leaves the links of other threads' nodes alone keeps them ended. */
  lemma EndedFrame(c: Config, p: Queue, q: Queue, next: map<Node, Link>, next': map<Node, Link>, t: Tid)
    requires Inv(c, p) && AllEnded(next, p) && Ended(next', q, t)
    requires forall u :: u in q.jobs && q.jobs[u].Filled? && u != t ==> u in p.jobs && p.jobs[u] == q.jobs[u]
    requires forall n :: n in p.holder && p.holder[n] != t && n in next ==> n in next' && next'[n] == next[n]
    ensures AllEnded(next', q)
  {
    forall u
      ensures Ended(next', q, u)
    {
      assert Ended(next, p, u);
      if u in q.jobs && q.jobs[u].Filled? && u != t {
        HolderOf(c, p, u);
      }
    }
  }

  lemma {:induction false} ReverseSnoc(xs: seq<Node>, x: Node)
    ensures Reverse(xs + [x]) == [x] + Reverse(xs)
  {
    if xs == [] {
      assert [x][1..] == [];
    } else {
      assert (xs + [x])[1..] == xs[1..] + [x];
      ReverseSnoc(xs[1..], x);
    }
  }

  lemma PointIs(ms: seq<Message>, prio: int, k: nat)
    requires k <= |ms| && (forall i :: 0 <= i < k ==> ms[i].prio >= prio) && (k < |ms| ==> ms[k].prio < prio)
    ensures k == PriorityPoint(ms, prio)
  {
    var j := PriorityPoint(ms, prio);
  }

  /** One pass of a list of nodes to the front of another. */
  lemma ChainMove(next: map<Node, Link>, head: Link, xs: seq<Node>, free: Link, ys: seq<Node>)
    requires Chain(next, head, xs) && Chain(next, free, ys) && xs != []
    requires Distinct(xs) && forall x :: x in xs ==> x !in ys
    ensures var n := xs[0]; n in next && Chain(next[n := free], next[n], xs[1..]) && Chain(next[n := free], Some(n), [n] + ys)
  {
    var n := xs[0];
    ChainTail(next, head, xs);
    ChainDomain(next, head, xs);
    TailDistinct(xs);
    ChainFrame(next, next[n := free], next[n], xs[1..]);
    ChainPush(next, free, ys, n);
  }

  /** The nodes below `n`, the last first. */
  function Down(n: nat): seq<Node> {
    if n == 0 then [] else [n - 1] + Down(n - 1)
  }

  lemma {:induction false} DownMembers(n: nat)
    ensures forall i :: i in Down(n) ==> i < n
  {
    if n > 0 {
      DownMembers(n - 1);
    }
  }

  lemma {:induction false} DownIs(n: nat)
    ensures |Down(n)| == n && forall i :: 0 <= i < n ==> Down(n)[i] == n - 1 - i
  {
    if n > 0 {
      DownIs(n - 1);
    }
  }

  lemma JobFits(c: Config, p: Queue, t: Tid)
    requires Inv(c, p) && t in p.jobs
    ensures ContentOk(c, p.text, p.jobs[t])
  {
    assert JobOk(c, p, t);
  }

  lemma AreasFilled(c: Config, length: map<Node, nat>, area: map<Node, seq<Byte>>, prio: map<Node, int>, text: map<Node, Message>, n: Node, bytes: seq<Byte>)
    requires Areas(c, length, area, prio, text) && n < c.maxMsgs && |bytes| <= c.msgSize
    ensures n in length && n in area && n in text && |area[n]| == c.msgSize
    ensures Areas(c, length[n := |bytes|], area[n := bytes + area[n][|bytes|..]], prio, text[n := text[n].(bytes := bytes)])
  {
    assert AreaOk(c, length, area, prio, text, n);
    var length', area' := length[n := |bytes|], area[n := bytes + area[n][|bytes|..]];
    var text' := text[n := text[n].(bytes := bytes)];
    forall k: nat | k < c.maxMsgs
      ensures AreaOk(c, length', area', prio, text', k)
    {
      assert AreaOk(c, length, area, prio, text, k);
      assert k == n ==> area'[k][..|bytes|] == bytes;
    }
  }

  lemma AreasStamped(c: Config, length: map<Node, nat>, area: map<Node, seq<Byte>>, prio: map<Node, int>, text: map<Node, Message>, n: Node, m: Message)
    requires Areas(c, length, area, prio, text) && n < c.maxMsgs
    requires n in text && m.bytes == text[n].bytes
    ensures n in prio && Areas(c, length, area, prio[n := m.prio], text[n := m])
    ensures text[n].prio == prio[n] && (m.prio == text[n].prio ==> prio[n := m.prio] == prio)
  {
    assert AreaOk(c, length, area, prio, text, n);
    var prio', text' := prio[n := m.prio], text[n := m];
    forall k: nat | k < c.maxMsgs
      ensures AreaOk(c, length, area, prio', text', k)
    {
      assert AreaOk(c, length, area, prio, text, k);
    }
  }

  /** What is known when a filled node is to be linked. */
  lemma LinkReady(c: Config, p: Queue, t: Tid)
    requires Inv(c, p) && t in p.jobs && p.jobs[t].Filled?
    ensures var n := p.jobs[t].node;
      n in p.holder && n < c.maxMsgs && n !in p.queue && n !in p.freed && n in p.text && Distinct(p.queue)
    ensures Inv(c, Next(c, p, Step.Link(t))) && |p.queue| < c.maxMsgs
    ensures Next(c, p, Step.Link(t)).queue == InsertAt(p.queue, LinkPoint(c, Messages(p), p.jobs[t].m, p.jobs[t].urgent), p.jobs[t].node)
    ensures Next(c, p, Step.Link(t)).text == p.text[p.jobs[t].node := Stamped(c, p, p.jobs[t].node, p.jobs[t].m, p.jobs[t].urgent)]
    ensures Next(c, p, Step.Link(t)).receivers == (if p.receivers == [] then [] else p.receivers[1..])
    ensures Next(c, p, Step.Link(t)).senders == p.senders && Next(c, p, Step.Link(t)).freed == p.freed
    ensures Stamped(c, p, p.jobs[t].node, p.jobs[t].m, p.jobs[t].urgent).bytes == p.text[p.jobs[t].node].bytes
  {
    HolderOf(c, p, t);
    JobFits(c, p, t);
    NextKeeps(c, p, Step.Link(t));
    NeverOverflows(c, p, t);
    hide Places, Jobs, LinkPoint, Messages;
  }

  lemma PriosKnown(c: Config, length: map<Node, nat>, area: map<Node, seq<Byte>>, prio: map<Node, int>, text: map<Node, Message>, p: Queue, n: Node)
    requires Inv(c, p) && Areas(c, length, area, prio, text) && n !in p.queue
    requires forall k :: k in p.queue && k in p.text ==> k in text && text[k] == p.text[k]
    ensures forall k :: k in p.queue ==> k in prio
    ensures forall i :: 0 <= i < |p.queue| ==> prio[p.queue[i]] == Messages(p)[i].prio
  {
    forall i | 0 <= i < |p.queue|
      ensures p.queue[i] in prio && prio[p.queue[i]] == Messages(p)[i].prio
    {
      assert PlaceOk(c, p, p.queue[i]);
      assert AreaOk(c, length, area, prio, text, p.queue[i]);
    }
  }

  lemma LinkFields(c: Config, length: map<Node, nat>, area: map<Node, seq<Byte>>, prio: map<Node, int>, next: map<Node, Link>, p: Queue, t: Tid)
    requires Inv(c, p) && t in p.jobs && p.jobs[t].Filled? && !p.jobs[t].urgent
    requires Areas(c, length, area, prio, p.text) && AllEnded(next, p)
    ensures var n, m := p.jobs[t].node, p.jobs[t].m;
      && n in next && next[n] == None
      && Areas(c, length, area, if c.priority then prio[n := m.prio] else prio, Next(c, p, Step.Link(t)).text)
    ensures forall i :: 0 <= i < |p.queue| ==> p.queue[i] in prio && prio[p.queue[i]] == Messages(p)[i].prio
  {
    var n, m := p.jobs[t].node, p.jobs[t].m;
    LinkReady(c, p, t);
    assert Ended(next, p, t);
    AreasStamped(c, length, area, prio, p.text, n, Stamped(c, p, n, m, false));
    PriosKnown(c, length, area, prio, p.text, p, n);
    hide Inv, Areas, AllEnded, Next, LinkPoint, Messages;
  }

  /** An urgent message keeps the priority its node had. */
  lemma UrgentFields(c: Config, length: map<Node, nat>, area: map<Node, seq<Byte>>, prio: map<Node, int>, p: Queue, t: Tid)
    requires Inv(c, p) && t in p.jobs && p.jobs[t].Filled? && p.jobs[t].urgent
    requires Areas(c, length, area, prio, p.text)
    ensures Areas(c, length, area, prio, Next(c, p, Step.Link(t)).text)
    ensures Next(c, p, Step.Link(t)).queue == [p.jobs[t].node] + p.queue
  {
    var n, m := p.jobs[t].node, p.jobs[t].m;
    LinkReady(c, p, t);
    AreasStamped(c, length, area, prio, p.text, n, Stamped(c, p, n, m, true));
    hide Inv, Areas, Next, Messages;
    assert InsertAt(p.queue, 0, n) == [n] + p.queue;
  }

  lemma LinkDone(c: Config, p: Queue, t: Tid, before: map<Node, Link>, next: map<Node, Link>, head: Link, tail: Link, free: Link)
    requires Inv(c, p) && t in p.jobs && p.jobs[t].Filled? && AllEnded(before, p) && Chain(before, free, p.freed)
    requires Chain(next, head, Next(c, p, Step.Link(t)).queue) && tail == Last(Next(c, p, Step.Link(t)).queue)
    requires forall k :: k in before && k != p.jobs[t].node && k !in p.queue ==> k in next && next[k] == before[k]
    ensures Lists(next, head, tail, free, Next(c, p, Step.Link(t))) && AllEnded(next, Next(c, p, Step.Link(t)))
  {
    var q := Next(c, p, Step.Link(t));
    HolderOf(c, p, t);
    Apart(c, p);
    ChainDomain(before, free, p.freed);
    ChainFrame(before, next, free, p.freed);
    LinkReady(c, p, t);
    OtherJobs(c, p, t);
    hide Chain, Places, Orders;
    EndedFrame(c, p, q, before, next, t);
  }

  lemma OtherJobs(c: Config, p: Queue, t: Tid)
    requires Inv(c, p) && t in p.jobs && p.jobs[t].Filled?
    ensures var q := Next(c, p, Step.Link(t));
      && t in q.jobs && !q.jobs[t].Filled?
      && (forall u :: u in q.jobs && q.jobs[u].Filled? ==> u in p.jobs && p.jobs[u] == q.jobs[u])
  {
    hide Inv, LinkPoint, Messages, InsertAt, Stamped;
  }

  lemma InsertAtLast(xs: seq<Node>, k: nat, n: Node)
    requires k <= |xs|
    ensures Last(InsertAt(xs, k, n)) == if k < |xs| then Last(xs) else Some(n)
    ensures xs == [] ==> InsertAt(xs, k, n) == [n]
  {
  }

  lemma GiveBackLinks(c: Config, p: Queue, t: Tid, next: map<Node, Link>, head: Link, free: Link)
    requires Inv(c, p) && t in p.jobs && p.jobs[t].Returning? && AllEnded(next, p)
    requires Chain(next, head, p.queue) && Chain(next, free, p.freed)
    ensures var n, q := p.jobs[t].node, Next(c, p, Step.GiveBack(t));
      Chain(next[n := free], head, q.queue) && Chain(next[n := free], Some(n), q.freed) && AllEnded(next[n := free], q)
  {
    var n, q := p.jobs[t].node, Next(c, p, Step.GiveBack(t));
    HolderOf(c, p, t);
    ChainDomain(next, head, p.queue);
    ChainFrame(next, next[n := free], head, p.queue);
    ChainPush(next, free, p.freed, n);
    hide Chain, Places, Orders;
    assert t in q.jobs && !q.jobs[t].Filled?;
    EndedFrame(c, p, q, next, next[n := free], t);
  }

  /** What is still queued and what is free already, with `i` nodes of `xs` moved to the list that was `fs`. */
  ghost predicate Clearing(next: map<Node, Link>, head: Link, tail: Link, free: Link, xs: seq<Node>, fs: seq<Node>, i: nat) {
    && i <= |xs| && Chain(next, head, xs[i..]) && tail == Last(xs[i..])
    && Chain(next, free, Reverse(xs[..i]) + fs)
  }

  lemma ClearSequences(xs: seq<Node>, fs: seq<Node>, i: nat)
    requires Distinct(xs) && i < |xs| && forall x :: x in xs ==> x !in fs
    ensures xs[i..][1..] == xs[i + 1..] && xs[i] in xs && Distinct(xs[i..])
    ensures [xs[i]] + (Reverse(xs[..i]) + fs) == Reverse(xs[..i + 1]) + fs
    ensures forall x :: x in xs[i..] ==> x !in Reverse(xs[..i]) + fs
    ensures Last(xs[i..]) == Some(xs[i]) <==> i + 1 == |xs|
    ensures i + 1 < |xs| ==> Last(xs[i + 1..]) == Last(xs[i..])
  {
    PrefixDistinct(xs, i);
    ReverseMembers(xs[..i]);
    ReverseSnoc(xs[..i], xs[i]);
    assert xs[..i + 1] == xs[..i] + [xs[i]];
    hide Reverse;
    assert [xs[i]] + (Reverse(xs[..i]) + fs) == [xs[i]] + Reverse(xs[..i]) + fs;
  }

  lemma ClearStep(next: map<Node, Link>, head: Link, tail: Link, free: Link, xs: seq<Node>, fs: seq<Node>, i: nat)
    requires Clearing(next, head, tail, free, xs, fs, i) && head != None
    requires Distinct(xs) && forall x :: x in xs ==> x !in fs
    ensures head.value in xs && head.value in next && i < |xs|
    ensures Clearing(next[head.value := free], next[head.value], if tail == head then None else tail, head, xs, fs, i + 1)
  {
    assert i < |xs|;
    ClearSequences(xs, fs, i);
    ChainMove(next, head, xs[i..], free, Reverse(xs[..i]) + fs);
    hide Chain, Distinct, Reverse;
  }

  lemma ClearBounds(next: map<Node, Link>, head: Link, tail: Link, free: Link, xs: seq<Node>, fs: seq<Node>)
    requires Chain(next, head, xs) && tail == Last(xs) && Chain(next, free, fs)
    ensures Clearing(next, head, tail, free, xs, fs, 0)
  {
    assert xs[0..] == xs && xs[..0] == [];
    assert Reverse<Node>([]) + fs == fs;
  }

  lemma ClearEnds(next: map<Node, Link>, head: Link, tail: Link, free: Link, xs: seq<Node>, fs: seq<Node>, i: nat)
    requires Clearing(next, head, tail, free, xs, fs, i) && head == None
    ensures Chain(next, None, []) && tail == None && Chain(next, free, Reverse(xs) + fs)
  {
    assert i == |xs| && xs[..i] == xs;
  }

  lemma PrefixDistinct(xs: seq<Node>, i: nat)
    requires Distinct(xs) && i <= |xs|
    ensures Distinct(xs[..i]) && Distinct(xs[i..]) && forall x :: x in xs[i..] ==> x !in xs[..i] && x in xs
  {
  }

  lemma ResetEffect(c: Config, p: Queue)
    requires Inv(c, p) && p.live
    ensures var q := Next(c, p, Step.Reset);
      && Inv(c, q) && q == WasReset(p) && q.text == p.text
      && q.queue == [] && q.freed == Reverse(p.queue) + p.freed && q.receivers == [] && q.senders == []
    ensures Distinct(p.queue) && forall n :: n in p.queue ==> n !in p.freed
  {
    NextKeeps(c, p, Step.Reset);
    Apart(c, p);
  }

  lemma ResetDone(c: Config, p: Queue, before: map<Node, Link>, next: map<Node, Link>)
    requires Inv(c, p) && AllEnded(before, p)
    requires forall n :: n in before && n !in p.queue ==> n in next && next[n] == before[n]
    ensures AllEnded(next, WasReset(p))
  {
    forall u
      ensures Ended(next, WasReset(p), u)
    {
      assert Ended(before, p, u);
      if u in p.jobs && p.jobs[u].Filled? {
        HolderOf(c, p, u);
      }
    }
  }

  lemma ReserveEffect(c: Config, p: Queue, t: Tid, wait: bool, pos: nat, next: map<Node, Link>, free: Link)
    requires Inv(c, p) && t in p.jobs && p.jobs[t].Sending?
    requires AllEnded(next, p) && Chain(next, free, p.freed)
    ensures var q := Next(c, p, Step.Reserve(t, wait, pos));
      && Inv(c, q) && AllEnded(next, q)
      && q.text == p.text && q.queue == p.queue && q.receivers == p.receivers
      && q.freed == (if p.freed == [] then [] else p.freed[1..])
      && q.senders == (if p.freed == [] && !p.jobs[t].urgent && wait then InsertAt(p.senders, Pos(p.senders, pos), t) else p.senders)
      && t in q.jobs
      && q.jobs[t] == if p.freed != [] then Filling(p.freed[0], p.jobs[t].m, p.jobs[t].urgent)
                      else if p.jobs[t].urgent || !wait then Done(-EFULL) else SendWaits(p.jobs[t].m)
    ensures free == First(p.freed)
    ensures p.freed != [] ==> free.value in next && Chain(next, next[free.value], p.freed[1..])
  {
    var q := Next(c, p, Step.Reserve(t, wait, pos));
    NextKeeps(c, p, Step.Reserve(t, wait, pos));
    if p.freed != [] {
      ChainTail(next, free, p.freed);
    }
    hide Chain, Places, Orders, InsertAt;
    EndedFrame(c, p, q, next, next, t);
  }

  /** Copying a message into a node in flight, and marking it as the last, disturbs no list. */
  lemma FillEffect(c: Config, p: Queue, t: Tid, next: map<Node, Link>, head: Link, free: Link)
    requires Inv(c, p) && t in p.jobs && p.jobs[t].Filling?
    requires AllEnded(next, p) && Chain(next, head, p.queue) && Chain(next, free, p.freed)
    ensures var q, n := Next(c, p, Step.Fill(t)), p.jobs[t].node;
      var next' := if p.jobs[t].urgent then next else next[n := None];
      && Inv(c, q) && q.queue == p.queue && q.freed == p.freed && q.receivers == p.receivers && q.senders == p.senders
      && n in p.text && n < c.maxMsgs && |p.jobs[t].m.bytes| <= c.msgSize
      && q.text == p.text[n := p.text[n].(bytes := p.jobs[t].m.bytes)]
      && t in q.jobs && q.jobs[t] == Filled(n, p.jobs[t].m, p.jobs[t].urgent)
      && AllEnded(next', q) && Chain(next', head, q.queue) && Chain(next', free, q.freed)
  {
    var q, n := Next(c, p, Step.Fill(t)), p.jobs[t].node;
    var next' := if p.jobs[t].urgent then next else next[n := None];
    NextKeeps(c, p, Step.Fill(t));
    HolderOf(c, p, t);
    JobFits(c, p, t);
    assert PlaceOk(c, p, n);
    Apart(c, p);
    ChainDomain(next, head, p.queue);
    ChainDomain(next, free, p.freed);
    ChainFrame(next, next', head, p.queue);
    ChainFrame(next, next', free, p.freed);
    hide Chain, Places, Orders, Jobs;
    EndedFrame(c, p, q, next, next', t);
  }

  lemma ExpireEffect(c: Config, p: Queue, t: Tid, code: int, next: map<Node, Link>)
    requires Inv(c, p) && t in p.jobs && Waits(p.jobs[t]) && code < 0 && AllEnded(next, p)
    ensures var q := Next(c, p, Step.Expire(t, code));
      && Inv(c, q) && AllEnded(next, q) && t in q.jobs && q.jobs[t] == Done(code)
      && q.text == p.text && q.queue == p.queue && q.freed == p.freed
      && q.receivers == Without(p.receivers, t) && q.senders == Without(p.senders, t)
  {
    var q := Next(c, p, Step.Expire(t, code));
    NextKeeps(c, p, Step.Expire(t, code));
    EndedFrame(c, p, q, next, next, t);
  }

  lemma DetachEffect(c: Config, p: Queue, next: map<Node, Link>)
    requires Inv(c, p) && p.live && AllEnded(next, p)
    ensures var q := Next(c, p, Step.Detach);
      && Inv(c, q) && AllEnded(next, q)
      && q.text == p.text && q.queue == p.queue && q.freed == p.freed && q.receivers == [] && q.senders == []
  {
    NextKeeps(c, p, Step.Detach);
    forall u
      ensures Ended(next, WasDetached(p), u)
    {
      assert Ended(next, p, u);
    }
  }

  lemma TakeEffect(c: Config, p: Queue, t: Tid, wait: bool, pos: nat, next: map<Node, Link>, head: Link)
    requires Inv(c, p) && t in p.jobs && p.jobs[t].Receiving?
    requires AllEnded(next, p) && Chain(next, head, p.queue)
    ensures var q := Next(c, p, Step.Take(t, wait, pos));
      && Inv(c, q) && AllEnded(next, q)
      && q.text == p.text && q.freed == p.freed && q.senders == p.senders
      && q.queue == (if p.queue == [] then [] else p.queue[1..])
      && q.receivers == (if p.queue == [] && wait then InsertAt(p.receivers, Pos(p.receivers, pos), t) else p.receivers)
      && t in q.jobs
      && if p.queue != [] then q.jobs[t] == Reading(p.queue[0], p.jobs[t].size, Messages(p)[0])
         else q.jobs[t] == if wait then RecvWaits(p.jobs[t].size) else Done(-ETIMEOUT)
    ensures head == First(p.queue)
    ensures p.queue != [] ==> head.value in next && Chain(next, next[head.value], p.queue[1..])
    ensures p.queue != [] ==> (Last(p.queue) == head <==> p.queue[1..] == [])
  {
    var q := Next(c, p, Step.Take(t, wait, pos));
    NextKeeps(c, p, Step.Take(t, wait, pos));
    if p.queue != [] {
      TailDistinct(p.queue);
      ChainTail(next, head, p.queue);
    }
    hide Chain, Places, Orders, InsertAt;
    EndedFrame(c, p, q, next, next, t);
  }

  lemma GiveBackEffect(c: Config, p: Queue, t: Tid)
    requires Inv(c, p) && t in p.jobs && p.jobs[t].Returning?
    ensures var q := Next(c, p, Step.GiveBack(t));
      && Inv(c, q) && q.text == p.text && q.queue == p.queue && q.freed == [p.jobs[t].node] + p.freed
      && q.receivers == p.receivers && q.senders == (if p.senders == [] then [] else p.senders[1..])
      && t in q.jobs && q.jobs[t] == Done(|p.jobs[t].bytes|)
  {
    NextKeeps(c, p, Step.GiveBack(t));
    assert JobOk(c, p, t);
    hide Places, Orders;
  }

  class Mailbox {
    const c: Config
    var head: Link
    var tail: Link
    var free: Link
    var next: map<Node, Link>
    var length: map<Node, nat>
    var area: map<Node, seq<Byte>>
    var prio: map<Node, int>
    var entry: nat
    var receivers: seq<Tid>
    var senders: seq<Tid>
    ghost var p: Queue

    ghost predicate Valid()
      reads this
    {
      && c.maxMsgs <= ENTRY_MAX
      && Inv(c, p)
      && Lists(next, head, tail, free, p)
      && Areas(c, length, area, prio, p.text)
      && AllEnded(next, p)
      && entry == |p.queue| && receivers == p.receivers && senders == p.senders
    }

    /** `rt_mq_init`: every node on the free list, the last one first. */
    constructor (c: Config, threads: set<Tid>)
      requires c.maxMsgs <= ENTRY_MAX
      ensures Valid() && this.c == c && p == MessageProtocol.Start(c, threads)
    {
      this.c := c;
      head, tail, entry, receivers, senders := None, None, 0, [], [];
      prio := map n | n in Upto(c.maxMsgs) :: 0;
      length := map n | n in Upto(c.maxMsgs) :: 0;
      area := map n | n in Upto(c.maxMsgs) :: seq(c.msgSize, i => 0);
      p := MessageProtocol.Start(c, threads);
      var nodes: map<Node, Link>, first: Link := map[], None;
      var i: nat := 0;
      while i < c.maxMsgs
        invariant i <= c.maxMsgs
        invariant Chain(nodes, first, Down(i))
      {
        DownMembers(i);
        ChainPush(nodes, first, Down(i), i);
        nodes := nodes[i := first];
        first := Some(i);
        i := i + 1;
      }
      next, free := nodes, first;
      new;
      DownIs(c.maxMsgs);
      assert p.freed == Down(c.maxMsgs);
      StartOk(c, threads);
    }

    // ----- the links

    /** The new node becomes the last. */
    method Append(n: Node, ghost xs: seq<Node>)
      requires Chain(next, head, xs) && tail == Last(xs) && Distinct(xs) && n !in xs && n in next && next[n] == None
      modifies this`head, this`tail, this`next
      ensures Chain(next, head, xs + [n]) && tail == Some(n)
      ensures forall m :: m in old(next) && m !in xs ==> m in next && next[m] == old(next)[m]
    {
      ChainDomain(next, head, xs);
      if tail != None {
        ChainEnd(next, head, xs, n);
        assert InsertAt(xs, |xs|, n) == xs + [n];
        next := next[tail.value := Some(n)];
      }
      tail := Some(n);
      if head == None {
        head := Some(n);
        assert xs + [n] == [n];
      }
    }

    /** The new node becomes the first. */
    method Prepend(n: Node, ghost xs: seq<Node>)
      requires Chain(next, head, xs) && tail == Last(xs) && n !in xs
      modifies this`head, this`tail, this`next
      ensures Chain(next, head, [n] + xs) && tail == Last([n] + xs)
      ensures forall m :: m in old(next) && m != n ==> m in next && next[m] == old(next)[m]
    {
      ChainPush(next, head, xs, n);
      next := next[n := head];
      head := Some(n);
      if tail == None {
        tail := Some(n);
      }
    }

    /** The loop of a send in priority mode, with its shortcut for the empty queue. */
    method InsertByPriority(n: Node, ghost xs: seq<Node>) returns (ghost k: nat)
      requires Chain(next, head, xs) && tail == Last(xs) && Distinct(xs) && n !in xs && n in next && next[n] == None
      requires n in prio && forall x :: x in xs ==> x in prio
      modifies this`head, this`tail, this`next
      ensures k <= |xs| && (forall i :: 0 <= i < k ==> prio[xs[i]] >= prio[n]) && (k < |xs| ==> prio[xs[k]] < prio[n])
      ensures Chain(next, head, InsertAt(xs, k, n)) && tail == Last(InsertAt(xs, k, n))
      ensures forall m :: m in old(next) && m != n && m !in xs ==> m in next && next[m] == old(next)[m]
    {
      k := 0;
      ghost var ys := if xs == [] then [n] else xs;
      if head == None {
        ChainPush(next, None, [], n);
        assert next[n := None] == next;
        head := Some(n);
      }
      var node, prev := head, None;
      hide Chain, Distinct, InsertAt;
      while node != None
        invariant Chain(next, head, ys) && k < |ys| && node == Some(ys[k]) && prev == (if k == 0 then None else Some(ys[k - 1]))
        invariant next == old(next) && tail == Last(xs)
        invariant xs == [] ==> k == 0
        invariant forall i :: 0 <= i < k ==> prio[ys[i]] >= prio[n]
        decreases |ys| - k
      {
        ChainStep(next, head, ys, k);
        if prio[node.value] < prio[n] {
          ChainBefore(next, head, xs, k, n);
          InsertAtLast(xs, k, n);
          if prev == None {
            head := Some(n);
          } else {
            next := next[prev.value := Some(n)];
          }
          next := next[n := node];
          return;
        }
        if next[node.value] == None {
          k := |xs|;
          InsertAtLast(xs, k, n);
          if node != Some(n) {
            ChainEnd(next, head, xs, n);
            next := next[node.value := Some(n)];
          }
          tail := Some(n);
          return;
        }
        prev := node;
        node := next[node.value];
        k := k + 1;
      }
    }

    // ----- sending

    /** The checks at the start of a send: a message that is too long is refused. */
    method CallSend(t: Tid, m: Message, urgent: bool) returns (ok: bool)
      requires Valid() && p.live && t in p.jobs && p.jobs[t].Done? && m.bytes != []
      modifies this`p
      ensures Valid() && p == Next(c, old(p), Step.CallSend(t, m, urgent))
      ensures ok <==> |m.bytes| <= c.msgSize
      ensures p.jobs[t] == if ok then Sending(m, urgent, false) else Done(-ERROR)
    {
      NextKeeps(c, p, Step.CallSend(t, m, urgent));
      EndedFrame(c, p, Next(c, p, Step.CallSend(t, m, urgent)), next, next, t);
      hide Inv, Areas, AllEnded, Chain;
      ok := |m.bytes| <= c.msgSize;
      p := Next(c, p, Step.CallSend(t, m, urgent));
    }

    /** The first critical section of a send: a node off the free list, or wait for one. */
    method Reserve(t: Tid, m: Message, urgent: bool, wait: bool, pos: nat) returns (node: Link)
      requires Valid() && t in p.jobs && p.jobs[t].Sending? && p.jobs[t].m == m && p.jobs[t].urgent == urgent
      modifies this`free, this`senders, this`p
      ensures Valid() && p == Next(c, old(p), Step.Reserve(t, wait, pos))
      ensures node == First(old(p).freed) && t in p.jobs
      ensures p.jobs[t] == match node
                           case Some(n) => Filling(n, m, urgent)
                           case None => if urgent || !wait then Done(-EFULL) else SendWaits(m)
    {
      ghost var q := Next(c, p, Step.Reserve(t, wait, pos));
      ReserveEffect(c, p, t, wait, pos, next, free);
      hide Inv, Areas, AllEnded, Chain, Next, InsertAt;
      node := free;
      if free != None {
        free := next[free.value];
      } else if !urgent && wait {
        senders := InsertAt(senders, Pos(senders, pos), t);
      }
      p := q;
    }

    /** Between the critical sections: the message goes into the node. */
    method Fill(t: Tid, n: Node, m: Message, urgent: bool)
      requires Valid() && t in p.jobs && p.jobs[t] == Filling(n, m, urgent)
      modifies this`next, this`length, this`area, this`p
      ensures Valid() && p == Next(c, old(p), Step.Fill(t))
      ensures t in p.jobs && p.jobs[t] == Filled(n, m, urgent) && n in area && n in length
      ensures |m.bytes| <= |area[n]| && area[n][..|m.bytes|] == m.bytes && length[n] == |m.bytes|
    {
      ghost var q := Next(c, p, Step.Fill(t));
      FillEffect(c, p, t, next, head, free);
      AreasFilled(c, length, area, prio, p.text, n, m.bytes);
      hide Inv, Areas, AllEnded, Chain, Next;
      if !urgent {
        next := next[n := None];
      }
      length := length[n := |m.bytes|];
      area := area[n := m.bytes + area[n][|m.bytes|..]];
      p := q;
    }

    /** The counter, and the first waiting receiver, after a message has been linked. */
    method CountAndWake() returns (ok: bool)
      requires entry < ENTRY_MAX
      modifies this`entry, this`receivers
      ensures ok && entry == old(entry) + 1
      ensures receivers == if old(receivers) == [] then [] else old(receivers)[1..]
    {
      ok := entry < ENTRY_MAX;
      if ok {
        entry := entry + 1;
      }
      if ok && receivers != [] {
        receivers := receivers[1..];
      }
    }

    /** Where a send puts its node: behind the tail, or by priority. */
    method Enqueue(n: Node, m: Message)
      requires Chain(next, head, p.queue) && tail == Last(p.queue) && Distinct(p.queue)
      requires n !in p.queue && n in next && next[n] == None
      requires forall i :: 0 <= i < |p.queue| ==> p.queue[i] in prio && prio[p.queue[i]] == Messages(p)[i].prio
      modifies this`head, this`tail, this`next, this`prio
      ensures var xs := InsertAt(p.queue, LinkPoint(c, Messages(p), m, false), n); Chain(next, head, xs) && tail == Last(xs)
      ensures prio == if c.priority then old(prio)[n := m.prio] else old(prio)
      ensures forall k :: k in old(next) && k != n && k !in p.queue ==> k in next && next[k] == old(next)[k]
    {
      hide Chain, Distinct;
      if c.priority {
        prio := prio[n := m.prio];
        ghost var k := InsertByPriority(n, p.queue);
        PointIs(Messages(p), m.prio, k);
      } else {
        Append(n, p.queue);
        assert InsertAt(p.queue, |p.queue|, n) == p.queue + [n];
      }
    }

    /** The second critical section of a send: the node into the queue, and a receiver woken. */
    method Link(t: Tid, n: Node, m: Message) returns (ok: bool)
      requires Valid() && t in p.jobs && p.jobs[t] == Filled(n, m, false)
      modifies this
      ensures Valid() && ok && p == Next(c, old(p), Step.Link(t))
    {
      ghost var q, before := Next(c, p, Step.Link(t)), next;
      hide Inv, Areas, AllEnded, Chain, Distinct, Next, Ended, LinkPoint, Stamped;
      LinkReady(c, p, t);
      LinkFields(c, length, area, prio, next, p, t);
      Enqueue(n, m);
      LinkDone(c, p, t, before, next, head, tail, free);
      p := q;
      ok := CountAndWake();
    }

    /** The second critical section of `rt_mq_urgent`. */
    method LinkUrgent(t: Tid, n: Node, m: Message) returns (ok: bool)
      requires Valid() && t in p.jobs && p.jobs[t] == Filled(n, m, true)
      modifies this
      ensures Valid() && ok && p == Next(c, old(p), Step.Link(t))
    {
      ghost var q, before := Next(c, p, Step.Link(t)), next;
      hide Inv, Areas, AllEnded, Chain, Distinct, Next, Ended, LinkPoint, Stamped;
      LinkReady(c, p, t);
      UrgentFields(c, length, area, prio, p, t);
      Prepend(n, p.queue);
      LinkDone(c, p, t, before, next, head, tail, free);
      p := q;
      ok := CountAndWake();
    }

    // ----- receiving

    method CallRecv(t: Tid, size: nat)
      requires Valid() && p.live && t in p.jobs && p.jobs[t].Done? && size > 0
      modifies this`p
      ensures Valid() && p == Next(c, old(p), Step.CallRecv(t, size)) && p.jobs[t] == Receiving(size, false)
    {
      NextKeeps(c, p, Step.CallRecv(t, size));
      EndedFrame(c, p, Next(c, p, Step.CallRecv(t, size)), next, next, t);
      hide Inv, Areas, AllEnded, Chain;
      p := Next(c, p, Step.CallRecv(t, size));
    }

    /** The first critical section of a receive: the first message off the queue, or wait for one. */
    method Take(t: Tid, size: nat, wait: bool, pos: nat) returns (node: Link)
      requires Valid() && t in p.jobs && p.jobs[t].Receiving? && p.jobs[t].size == size
      modifies this`head, this`tail, this`entry, this`receivers, this`p
      ensures Valid() && p == Next(c, old(p), Step.Take(t, wait, pos))
      ensures node == First(old(p).queue) && t in p.jobs
      ensures node.Some? ==> Messages(old(p)) != [] && p.jobs[t] == Reading(node.value, size, Messages(old(p))[0])
      ensures node.None? ==> p.jobs[t] == if wait then RecvWaits(size) else Done(-ETIMEOUT)
    {
      ghost var q := Next(c, p, Step.Take(t, wait, pos));
      hide Inv, Areas, AllEnded, Chain, Next, InsertAt;
      TakeEffect(c, p, t, wait, pos, next, head);
      node := None;
      if entry == 0 {
        if wait {
          receivers := InsertAt(receivers, Pos(receivers, pos), t);
        }
      } else {
        node := head;
        head := next[node.value];
        if tail == node {
          tail := None;
        }
        if entry > 0 {
          entry := entry - 1;
        }
      }
      p := q;
    }

    /** Between the critical sections: the message goes to the caller, cut to its buffer. */
    method Read(t: Tid, n: Node, size: nat) returns (bytes: seq<Byte>)
      requires Valid() && t in p.jobs && p.jobs[t].Reading? && p.jobs[t].node == n && p.jobs[t].size == size
      modifies this`p
      ensures Valid() && p == Next(c, old(p), Step.Read(t))
      ensures p.jobs[t] == Returning(n, bytes) && bytes == Prefix(old(p).jobs[t].m.bytes, size)
    {
      ghost var q := Next(c, p, Step.Read(t));
      NextKeeps(c, p, Step.Read(t));
      EndedFrame(c, p, q, next, next, t);
      HolderOf(c, p, t);
      JobFits(c, p, t);
      assert AreaOk(c, length, area, prio, p.text, n);
      hide Inv, Areas, AllEnded, Chain;
      var len := length[n];
      if len > size {
        len := size;
      }
      bytes := area[n][..len];
      p := q;
    }

    /** The second critical section of a receive: the node onto the free list, and a sender woken. */
    method GiveBack(t: Tid, n: Node, bytes: seq<Byte>) returns (code: int)
      requires Valid() && t in p.jobs && p.jobs[t] == Returning(n, bytes)
      modifies this`free, this`next, this`senders, this`p
      ensures Valid() && p == Next(c, old(p), Step.GiveBack(t)) && p.jobs[t] == Done(code) && code == |bytes|
      ensures free == Some(n) && p.freed == [n] + old(p).freed
    {
      ghost var q := Next(c, p, Step.GiveBack(t));
      hide Inv, Areas, AllEnded, Chain, Next;
      GiveBackEffect(c, p, t);
      GiveBackLinks(c, p, t, next, head, free);
      next := next[n := free];
      free := Some(n);
      if senders != [] {
        senders := senders[1..];
      }
      code := |bytes|;
      p := q;
    }

    /** A waiting thread gives up: its timer, a signal or a killer has taken it off the list. */
    method Expire(t: Tid, code: int)
      requires Valid() && t in p.jobs && Waits(p.jobs[t]) && code < 0
      modifies this`receivers, this`senders, this`p
      ensures Valid() && p == Next(c, old(p), Step.Expire(t, code))
      ensures t in p.jobs && p.jobs[t] == Done(code)
    {
      hide Inv, Areas, AllEnded, Chain, Next, Without;
      ghost var q := Next(c, p, Step.Expire(t, code));
      ExpireEffect(c, p, t, code, next);
      receivers := Without(receivers, t);
      senders := Without(senders, t);
      p := q;
    }

    /** `RT_IPC_CMD_RESET` of `rt_mq_control`: the loop moves the queue to the free list, node by node. */
    method Clear()
      requires Valid() && p.live
      modifies this`head, this`tail, this`free, this`next, this`entry, this`receivers, this`senders, this`p
      ensures Valid() && p == Next(c, old(p), Step.Reset)
    {
      ghost var q, before, was := Next(c, p, Step.Reset), next, p;
      hide Inv, Areas, AllEnded, Chain, Clearing, Reverse, Distinct, Next, PlaceOk;
      ResetEffect(c, p);
      ClearBounds(next, head, tail, free, p.queue, p.freed);
      receivers := [];
      senders := [];
      ghost var i: nat := 0;
      while head != None
        invariant p == was && receivers == [] && senders == []
        invariant Clearing(next, head, tail, free, p.queue, p.freed, i) && i <= |p.queue|
        invariant forall n :: n in before && n !in p.queue ==> n in next && next[n] == before[n]
        decreases |p.queue| - i
      {
        var msg := head;
        ClearStep(next, head, tail, free, p.queue, p.freed, i);
        head := next[msg.value];
        if tail == msg {
          tail := None;
        }
        next := next[msg.value := free];
        free := msg;
        i := i + 1;
      }
      ClearEnds(next, head, tail, free, p.queue, p.freed, i);
      ResetDone(c, p, before, next);
      entry := 0;
      p := q;
    }

    /** `rt_mq_detach`, and `rt_mq_delete` up to the release of the memory. */
    method Detach()
      requires Valid() && p.live
      modifies this`receivers, this`senders, this`p
      ensures Valid() && p == Next(c, old(p), Step.Detach) && !p.live
    {
      DetachEffect(c, p, next);
      receivers := [];
      senders := [];
      ghost var q := Next(c, p, Step.Detach);
      hide Inv, Areas, AllEnded, Chain;
      p := q;
    }
  }
}
