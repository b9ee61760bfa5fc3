/**
 The event object of `src/ipc.c`: 32 flags, and receivers that wait for all or any of some.
 */
module EventFlags {
  import opened Wrappers
  import opened Sequences

  type Tid = nat
  /** A word of flags, as the set of the numbers of its bits. */
  type Flags = set<nat>

  const ERROR: int := 1
  const ETIMEOUT: int := 2

  /** What a suspended receiver wants: `event_set`, and RT_EVENT_FLAG_AND and _CLEAR of `event_info`. */
  datatype Want = Want(flags: Flags, all: bool, clear: bool)

  predicate Satisfied(now: Flags, w: Want) {
    if w.all then now * w.flags == w.flags else now * w.flags != {}
  }

  /** A receiver waits for all of its flags, or for any of them. */
  lemma SatisfiedIff(now: Flags, w: Want)
    ensures w.all ==> (Satisfied(now, w) <==> forall b :: b in w.flags ==> b in now)
    ensures !w.all ==> (Satisfied(now, w) <==> exists b :: b in w.flags && b in now)
  {
    if now * w.flags != {} {
      var b :| b in now * w.flags;
      assert b in w.flags && b in now;
    }
    if b :| b in w.flags && b in now {
      assert b in now * w.flags;
    }
  }

  /** The flags that a receiver is told of. */
  function Received(now: Flags, w: Want): (fs: Flags)
    ensures forall b :: b in fs <==> b in w.flags && (w.all || b in now)
  {
    if w.all then w.flags else w.flags * now
  }

  /** What a send to `ts` leaves, of those satisfied taking what they clear. */
  function Cleared(now: Flags, wants: map<Tid, Want>, ts: seq<Tid>): Flags {
    if ts == [] then {}
    else
      var t := ts[0];
      (if t in wants && Satisfied(now, wants[t]) && wants[t].clear then Received(now, wants[t]) else {})
      + Cleared(now, wants, ts[1..])
  }

  /** Those of `ts` that are satisfied, or those that are not, in order. */
  function Select(now: Flags, wants: map<Tid, Want>, ts: seq<Tid>, satisfied: bool): seq<Tid> {
    if ts == [] then []
    else
      (if ts[0] in wants && Satisfied(now, wants[ts[0]]) == satisfied then [ts[0]] else [])
      + Select(now, wants, ts[1..], satisfied)
  }

  lemma {:induction false} SelectMembers(now: Flags, wants: map<Tid, Want>, ts: seq<Tid>, satisfied: bool)
    ensures forall t :: t in Select(now, wants, ts, satisfied) <==> t in ts && t in wants && Satisfied(now, wants[t]) == satisfied
    ensures |Select(now, wants, ts, satisfied)| <= |ts|
  {
    if ts != [] {
      assert ts == [ts[0]] + ts[1..];
      SelectMembers(now, wants, ts[1..], satisfied);
    }
  }

  lemma {:induction false} SelectDistinct(now: Flags, wants: map<Tid, Want>, ts: seq<Tid>, satisfied: bool)
    requires Distinct(ts)
    ensures Distinct(Select(now, wants, ts, satisfied))
  {
    if ts != [] {
      assert ts == [ts[0]] + ts[1..];
      SelectDistinct(now, wants, ts[1..], satisfied);
      SelectMembers(now, wants, ts[1..], satisfied);
    }
  }

  /** `xs` is `ys` with some elements left out. */
  predicate Within(xs: seq<Tid>, ys: seq<Tid>) {
    xs == [] || (ys != [] && ((xs[0] == ys[0] && Within(xs[1..], ys[1..])) || Within(xs, ys[1..])))
  }

  /** Receivers are woken, and go on waiting, in the order in which they wait. */
  lemma {:induction false} SelectInOrder(now: Flags, wants: map<Tid, Want>, ts: seq<Tid>, satisfied: bool)
    ensures Within(Select(now, wants, ts, satisfied), ts)
  {
    if ts != [] {
      SelectInOrder(now, wants, ts[1..], satisfied);
      var rest := Select(now, wants, ts[1..], satisfied);
      if ts[0] in wants && Satisfied(now, wants[ts[0]]) == satisfied {
        assert Select(now, wants, ts, satisfied) == [ts[0]] + rest;
        assert ([ts[0]] + rest)[1..] == rest;
      } else {
        assert Select(now, wants, ts, satisfied) == [] + rest == rest;
      }
    }
  }

  lemma {:induction false} SelectAppend(now: Flags, wants: map<Tid, Want>, xs: seq<Tid>, ys: seq<Tid>, satisfied: bool)
    ensures Select(now, wants, xs + ys, satisfied) == Select(now, wants, xs, satisfied) + Select(now, wants, ys, satisfied)
  {
    if xs == [] {
      assert xs + ys == ys;
    } else {
      assert (xs + ys)[1..] == xs[1..] + ys && (xs + ys)[0] == xs[0];
      SelectAppend(now, wants, xs[1..], ys, satisfied);
    }
  }

  lemma {:induction false} ClearedAppend(now: Flags, wants: map<Tid, Want>, xs: seq<Tid>, ys: seq<Tid>)
    ensures Cleared(now, wants, xs + ys) == Cleared(now, wants, xs) + Cleared(now, wants, ys)
  {
    if xs == [] {
      assert xs + ys == ys;
    } else {
      assert (xs + ys)[1..] == xs[1..] + ys && (xs + ys)[0] == xs[0];
      ClearedAppend(now, wants, xs[1..], ys);
    }
  }

  /** One receiver of the loop of a send. */
  lemma SendStep(now: Flags, wants: map<Tid, Want>, ts: seq<Tid>, i: nat)
    requires i < |ts| && ts[i] in wants && Distinct(ts)
    ensures forall b :: Select(now, wants, ts[..i + 1], b) ==
                        Select(now, wants, ts[..i], b) + if Satisfied(now, wants[ts[i]]) == b then [ts[i]] else []
    ensures Cleared(now, wants, ts[..i + 1]) ==
            Cleared(now, wants, ts[..i]) + if Satisfied(now, wants[ts[i]]) && wants[ts[i]].clear then Received(now, wants[ts[i]]) else {}
    ensures ts[i] !in Select(now, wants, ts[..i], true)
  {
    assert ts[..i + 1] == ts[..i] + [ts[i]];
    assert [ts[i]][1..] == [];
    SelectAppend(now, wants, ts[..i], [ts[i]], true);
    SelectAppend(now, wants, ts[..i], [ts[i]], false);
    ClearedAppend(now, wants, ts[..i], [ts[i]]);
    SelectMembers(now, wants, ts[..i], true);
  }

  ghost predicate Waiting(now: Flags, wants: map<Tid, Want>, t: Tid) {
    t in wants && wants[t].flags != {} && !Satisfied(now, wants[t])
  }

  /** No suspended receiver could go on with the flags that are set. */
  ghost predicate Inv(now: Flags, wants: map<Tid, Want>, ts: seq<Tid>) {
    Distinct(ts) && forall t {:trigger Waiting(now, wants, t)} :: t in ts ==> Waiting(now, wants, t)
  }

  /** Fewer flags satisfy fewer receivers. */
  lemma ClearingSatisfiesNobody(now: Flags, c: Flags, w: Want)
    requires !Satisfied(now, w)
    ensures !Satisfied(now - c, w)
  {
    if w.all {
      assert w.flags <= now - c ==> now * w.flags == w.flags;
    } else {
      assert (now - c) * w.flags <= now * w.flags;
    }
  }

  /** A send clears exactly the flags that some woken receiver with the option took. */
  lemma {:induction false} ClearedBits(now: Flags, wants: map<Tid, Want>, ts: seq<Tid>, bit: nat)
    ensures bit in Cleared(now, wants, ts) <==>
            exists i :: 0 <= i < |ts| && ts[i] in wants && Satisfied(now, wants[ts[i]]) && wants[ts[i]].clear && bit in Received(now, wants[ts[i]])
  {
    if ts != [] {
      ClearedBits(now, wants, ts[1..], bit);
      assert forall i :: 0 < i < |ts| ==> ts[i] == ts[1..][i - 1];
    }
  }

  /** What a send makes of the flags and of the receivers: those satisfied by the old and new flags leave. */
  lemma SendKeeps(held: Flags, sent: Flags, wants: map<Tid, Want>, ts: seq<Tid>)
    requires Inv(held, wants, ts)
    ensures var now := held + sent; Inv(now - Cleared(now, wants, ts), wants, Select(now, wants, ts, false))
  {
    var now := held + sent;
    var set' := now - Cleared(now, wants, ts);
    SelectMembers(now, wants, ts, false);
    SelectDistinct(now, wants, ts, false);
    forall t | t in Select(now, wants, ts, false)
      ensures Waiting(set', wants, t)
    {
      assert Waiting(held, wants, t);
      ClearingSatisfiesNobody(now, Cleared(now, wants, ts), wants[t]);
    }
  }

  lemma ClearKeeps(now: Flags, c: Flags, wants: map<Tid, Want>, ts: seq<Tid>)
    requires Inv(now, wants, ts)
    ensures Inv(now - c, wants, ts)
  {
    forall t | t in ts
      ensures Waiting(now - c, wants, t)
    {
      assert Waiting(now, wants, t);
      ClearingSatisfiesNobody(now, c, wants[t]);
    }
  }

  lemma SuspendKeeps(now: Flags, wants: map<Tid, Want>, ts: seq<Tid>, k: nat, t: Tid, w: Want)
    requires Inv(now, wants, ts) && k <= |ts| && t !in ts && w.flags != {} && !Satisfied(now, w)
    ensures Inv(now, wants[t := w], InsertAt(ts, k, t))
  {
    var r := InsertAt(ts, k, t);
    assert ts == ts[..k] + ts[k..];
    forall i, j | 0 <= i < j < |r|
      ensures r[i] != r[j]
    {
      assert i != k ==> r[i] == ts[if i < k then i else i - 1];
      assert j != k ==> r[j] == ts[if j < k then j else j - 1];
    }
    forall u | u in r
      ensures Waiting(now, wants[t := w], u)
    {
      assert u in ts ==> Waiting(now, wants, u);
    }
  }

  lemma WithoutKeeps(now: Flags, wants: map<Tid, Want>, ts: seq<Tid>, t: Tid)
    requires Inv(now, wants, ts)
    ensures Inv(now, wants, Without(ts, t)) && forall u :: u in Without(ts, t) <==> u in ts && u != t
  {
    WithoutMembers(ts, t);
  }

  /** The woken receivers have been told what they received. */
  ghost predicate Told(now: Flags, wants: map<Tid, Want>, wants': map<Tid, Want>, woken: seq<Tid>) {
    && wants'.Keys == wants.Keys
    && forall t :: t in wants ==> wants'[t] == if t in woken then wants[t].(flags := Received(now, wants[t])) else wants[t]
  }

  lemma SelectedBefore(now: Flags, wants: map<Tid, Want>, ts: seq<Tid>, i: nat)
    requires i < |ts| && Distinct(ts)
    ensures ts[i] in ts && ts[i] !in Select(now, wants, ts[..i], true)
  {
    SelectMembers(now, wants, ts[..i], true);
  }

  lemma KnownWants(now: Flags, wants: map<Tid, Want>, ts: seq<Tid>)
    requires Inv(now, wants, ts)
    ensures Distinct(ts) && forall t :: t in ts ==> t in wants
  {
    assert forall t :: t in ts ==> Waiting(now, wants, t);
  }

  lemma WantsFrame(now: Flags, wants: map<Tid, Want>, wants': map<Tid, Want>, ts: seq<Tid>)
    requires Inv(now, wants, ts) && forall t :: t in ts && t in wants ==> t in wants' && wants'[t] == wants[t]
    ensures Inv(now, wants', ts)
  {
    forall t | t in ts
      ensures Waiting(now, wants', t)
    {
      assert Waiting(now, wants, t);
    }
  }

  lemma OtherWants(now: Flags, wants: map<Tid, Want>, ts: seq<Tid>, t: Tid, w: Want)
    requires Inv(now, wants, ts) && t !in ts
    ensures Inv(now, wants[t := w], ts)
  {
    WantsFrame(now, wants, wants[t := w], ts);
  }

  /** `flags` is `event->set`; `wants` holds `event_set` and `event_info` of every thread. */
  class Event {
    var flags: Flags
    var waiters: seq<Tid>
    var wants: map<Tid, Want>

    ghost predicate Valid()
      reads this
    {
      Inv(flags, wants, waiters)
    }

    /** `rt_event_init`. */
    constructor ()
      ensures Valid() && flags == {} && waiters == []
    {
      flags, waiters, wants := {}, [], map[];
    }

    /** `rt_event_send`: `woken` go on with what `wants` then says they received. */
    method Send(sent: Flags) returns (code: int, woken: seq<Tid>)
      requires Valid()
      modifies this
      ensures Valid()
      ensures sent == {} ==> code == -ERROR && flags == old(flags) && waiters == old(waiters) && wants == old(wants) && woken == []
      ensures sent != {} ==>
        var now := old(flags) + sent;
        && code == 0
        && woken == Select(now, old(wants), old(waiters), true) && waiters == Select(now, old(wants), old(waiters), false)
        && flags == now - Cleared(now, old(wants), old(waiters))
        && Told(now, old(wants), wants, woken)
    {
      woken := [];
      if sent == {} {
        return -ERROR, [];
      }
      SendKeeps(flags, sent, wants, waiters);
      KnownWants(flags, wants, waiters);
      hide Inv;
      ghost var now, had := flags + sent, wants;
      flags := flags + sent;
      var need, rest;
      woken, rest, need := Scan();
      WantsFrame(now - need, had, wants, rest) by {
        SelectMembers(now, had, waiters, true);
        SelectMembers(now, had, waiters, false);
      }
      waiters := rest;
      flags := flags - need;
      code := 0;
    }

    /** The loop of a send along the suspended receivers. */
    method Scan() returns (woken: seq<Tid>, rest: seq<Tid>, need: Flags)
      requires Distinct(waiters) && forall t :: t in waiters ==> t in wants
      modifies this`wants
      ensures woken == Select(flags, old(wants), waiters, true) && rest == Select(flags, old(wants), waiters, false)
      ensures need == Cleared(flags, old(wants), waiters)
      ensures Told(flags, old(wants), wants, woken)
    {
      ghost var had := wants;
      woken, rest, need := [], [], {};
      var i := 0;
      while i < |waiters|
        invariant i <= |waiters|
        invariant rest == Select(flags, had, waiters[..i], false) && woken == Select(flags, had, waiters[..i], true)
        invariant need == Cleared(flags, had, waiters[..i])
        invariant Told(flags, had, wants, woken)
      {
        var t := waiters[i];
        SendStep(flags, had, waiters, i);
        SelectedBefore(flags, had, waiters, i);
        hide Select, Cleared, Distinct;
        if Satisfied(flags, wants[t]) {
          if !wants[t].all {
            wants := wants[t := wants[t].(flags := wants[t].flags * flags)];
          }
          if wants[t].clear {
            need := need + wants[t].flags;
          }
          woken := woken + [t];
        } else {
          rest := rest + [t];
        }
        i := i + 1;
      }
      assert waiters[..|waiters|] == waiters;
    }

    /** `_rt_event_recv`; `pos` is where the suspended receiver goes. */
    method Receive(t: Tid, w: Want, wait: bool, pos: nat) returns (code: Option<int>, received: Flags)
      requires Valid() && t !in waiters
      modifies this
      ensures Valid()
      ensures code == (if w.flags == {} then Some(-ERROR) else if Satisfied(old(flags), w) then Some(0)
                       else if wait then None else Some(-ETIMEOUT))
      ensures code == Some(0) ==>
        && received == Received(old(flags), w) && flags == (if w.clear then old(flags) - received else old(flags))
        && waiters == old(waiters) && wants == old(wants)[t := w.(flags := received)]
      ensures code == None ==>
        && flags == old(flags) && wants == old(wants)[t := w]
        && exists k :: 0 <= k <= |old(waiters)| && waiters == InsertAt(old(waiters), k, t)
      ensures code != Some(0) && code != None ==> flags == old(flags) && waiters == old(waiters) && wants == old(wants)
    {
      received := {};
      if w.flags == {} {
        return Some(-ERROR), {};
      }
      var status := false;
      if w.all {
        if flags * w.flags == w.flags {
          status := true;
        }
      } else {
        if flags * w.flags != {} {
          status := true;
        }
      }
      if status {
        received := flags * w.flags;
        OtherWants(flags, wants, waiters, t, w.(flags := received));
        ClearKeeps(flags, w.flags, wants[t := w.(flags := received)], waiters);
        wants := wants[t := w.(flags := received)];
        if w.clear {
          assert flags - w.flags == flags - received;
          flags := flags - w.flags;
        }
        code := Some(0);
      } else if !wait {
        code := Some(-ETIMEOUT);
      } else {
        var k := if pos <= |waiters| then pos else |waiters|;
        SuspendKeeps(flags, wants, waiters, k, t, w);
        wants := wants[t := w];
        waiters := InsertAt(waiters, k, t);
        code := None;
      }
    }

    /** A waiting receiver gives up, by its timer or by a signal. */
    method Expire(t: Tid)
      requires Valid() && t in waiters
      modifies this`waiters
      ensures Valid() && waiters == Without(old(waiters), t) && t !in waiters
    {
      WithoutKeeps(flags, wants, waiters, t);
      waiters := Without(waiters, t);
    }

    /** `RT_IPC_CMD_RESET` of `rt_event_control`. */
    method Clear() returns (woken: seq<Tid>)
      requires Valid()
      modifies this`waiters, this`flags
      ensures Valid() && flags == {} && waiters == [] && woken == old(waiters)
    {
      woken := waiters;
      waiters := [];
      flags := {};
    }
  }

  /** What a send does to a receiver that waits alone. */
  lemma SendToOne(now: Flags, wants: map<Tid, Want>, t: Tid)
    requires t in wants
    ensures var w := wants[t];
      && Select(now, wants, [t], true) == (if Satisfied(now, w) then [t] else [])
      && Select(now, wants, [t], false) == (if Satisfied(now, w) then [] else [t])
      && Cleared(now, wants, [t]) == if Satisfied(now, w) && w.clear then Received(now, w) else {}
  {
    assert [t][1..] == [];
  }

  /**
   A receiver that has to wait, and waits alone, gets from a send what it would get by calling right after the
   send, and the event is left with the same flags: `early` is received from first, `late` is sent to first.
   */
  method LoneReceiver(early: Event, late: Event, t: Tid, w: Want, sent: Flags, pos: nat) returns (received: Option<Flags>)
    requires early.Valid() && late.Valid() && early != late
    requires early.waiters == [] && late.waiters == [] && early.flags == late.flags
    requires w.flags != {} && !Satisfied(early.flags, w) && sent != {}
    modifies early, late
    ensures early.flags == late.flags && early.wants.Keys >= {t}
    ensures received.Some? <==> Satisfied(old(early.flags) + sent, w)
    ensures received.Some? ==> early.waiters == [] && late.waiters == []
                               && early.wants[t].flags == received.value && t in late.wants && late.wants[t] == early.wants[t]
    ensures received.None? ==> early.waiters == [t] && early.wants[t] == w
  {
    ghost var now := early.flags + sent;
    var suspended, _ := early.Receive(t, w, true, pos);
    assert early.waiters == [t];
    SendToOne(now, early.wants, t);
    var _, woken := early.Send(sent);
    var _, none := late.Send(sent);
    assert late.flags == now;
    var code, got := late.Receive(t, w, false, pos);
    received := if code == Some(0) then Some(got) else None;
  }
}
