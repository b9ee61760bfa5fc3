/**
 A wait-for graph: every thread has at most one outgoing edge, to the owner of
 the mutex it is suspended on. The lemmas here are about paths and cycles in
 such partial functions.
 */
module WaitGraph {
  import opened Wrappers

  type Tid = nat
  type Graph = map<Tid, Tid>

  /** The node `n` edges after `u`, if the path is that long. */
  function Chain(g: Graph, u: Tid, n: nat): Option<Tid>
    decreases n
  {
    if n == 0 then Some(u)
    else if u in g then Chain(g, g[u], n - 1)
    else None
  }

  ghost predicate Reaches(g: Graph, u: Tid, v: Tid) {
    exists n: nat :: Chain(g, u, n) == Some(v)
  }

  ghost predicate OnCycle(g: Graph, u: Tid) {
    exists n: nat :: 0 < n && Chain(g, u, n) == Some(u)
  }

  ghost predicate Acyclic(g: Graph) {
    forall u: Tid :: !OnCycle(g, u)
  }

  /** The members of `nodes` that reach `t`, `t` itself among them. */
  ghost function Ancestors(g: Graph, nodes: set<Tid>, t: Tid): set<Tid> {
    set u | u in nodes && Reaches(g, u, t)
  }

  lemma {:induction false} ChainAppend(g: Graph, u: Tid, a: nat, b: nat)
    requires Chain(g, u, a).Some?
    ensures Chain(g, u, a + b) == Chain(g, Chain(g, u, a).value, b)
    decreases a
  {
    if a != 0 {
      ChainAppend(g, g[u], a - 1, b);
    }
  }

  lemma {:induction false} ChainInLargerGraph(g: Graph, g': Graph, u: Tid, n: nat)
    requires forall x :: x in g ==> x in g' && g'[x] == g[x]
    requires Chain(g, u, n).Some?
    ensures Chain(g', u, n) == Chain(g, u, n)
    decreases n
  {
    if n != 0 {
      ChainInLargerGraph(g, g', g[u], n - 1);
    }
  }

  lemma {:induction false} ChainPrefix(g: Graph, u: Tid, a: nat, b: nat)
    requires Chain(g, u, a + b).Some?
    ensures Chain(g, u, a).Some?
    decreases a
  {
    if a != 0 {
      ChainPrefix(g, g[u], a - 1, b);
    }
  }

  lemma ReachesTransitive(g: Graph, u: Tid, v: Tid, w: Tid)
    requires Reaches(g, u, v) && Reaches(g, v, w)
    ensures Reaches(g, u, w)
  {
    var a: nat, b: nat :| Chain(g, u, a) == Some(v) && Chain(g, v, b) == Some(w);
    ChainAppend(g, u, a, b);
    assert Chain(g, u, a + b) == Some(w);
  }

  /** The start of an edge into a node that reaches `t` reaches `t`. */
  lemma EdgeReaches(g: Graph, u: Tid, t: Tid)
    requires u in g && Reaches(g, g[u], t)
    ensures Reaches(g, u, t)
  {
    var n: nat :| Chain(g, g[u], n) == Some(t);
    assert Chain(g, u, n + 1) == Some(t);
  }

  lemma ReachesSelf(g: Graph, t: Tid)
    ensures Reaches(g, t, t)
  {
    assert Chain(g, t, 0) == Some(t);
  }

  lemma ReachingBackIsCyclic(g: Graph, u: Tid, n: nat)
    requires u in g && Chain(g, g[u], n) == Some(u)
    ensures OnCycle(g, u)
  {
    assert Chain(g, u, n + 1) == Some(u);
  }

  /** Around a cycle: its nodes have an edge, to a node that reaches back and is on the cycle too. */
  lemma CycleSuccessor(g: Graph, u: Tid)
    requires OnCycle(g, u)
    ensures u in g && OnCycle(g, g[u]) && Reaches(g, g[u], u)
  {
    var n: nat :| 0 < n && Chain(g, u, n) == Some(u);
    assert Chain(g, g[u], n - 1) == Some(u);
    ChainAppend(g, g[u], n - 1, 1);
    assert Chain(g, u, 1) == Chain(g, g[u], 0) == Some(g[u]);
    assert Chain(g, g[u], n) == Some(g[u]);
  }

  lemma CyclePredecessor(g: Graph, u: Tid) returns (w: Tid)
    requires OnCycle(g, u)
    ensures w in g && g[w] == u && OnCycle(g, w)
  {
    var n: nat :| 0 < n && Chain(g, u, n) == Some(u);
    ChainPrefix(g, u, n - 1, 1);
    w := Chain(g, u, n - 1).value;
    ChainAppend(g, u, n - 1, 1);
    assert w in g && Chain(g, w, 1) == Chain(g, g[w], 0) == Some(g[w]);
    ReachingBackIsCyclic(g, w, n - 1);
  }

  /** Who waits for a node on no cycle is on no cycle. */
  lemma WaiterOffCycle(g: Graph, u: Tid)
    requires u in g && !OnCycle(g, g[u])
    ensures !OnCycle(g, u)
  {
    if OnCycle(g, u) {
      CycleSuccessor(g, u);
    }
  }

  lemma CycleInLargerGraph(g: Graph, g': Graph, u: Tid)
    requires forall x :: x in g ==> x in g' && g'[x] == g[x]
    requires OnCycle(g, u)
    ensures OnCycle(g', u)
  {
    var n: nat :| 0 < n && Chain(g, u, n) == Some(u);
    ChainInLargerGraph(g, g', u, n);
  }

  /** A path that ends in a node with an out-edge uses no edge into a sink. */
  lemma {:induction false} ChainAvoidsSinks(g: Graph, g': Graph, u: Tid, n: nat, v: Tid)
    requires forall x :: x in g' ==> (x in g && g[x] == g'[x]) || g'[x] !in g'
    requires Chain(g', u, n) == Some(v) && v in g'
    ensures Chain(g, u, n) == Some(v)
    decreases n
  {
    if n != 0 {
      ChainAvoidsSinks(g, g', g'[u], n - 1, v);
    }
  }

  /** Edges that differ lead into sinks, so a node with an edge in `g'` is reached in `g` whenever it is in `g'`. */
  lemma ReachesAvoidsSinks(g: Graph, g': Graph, u: Tid, v: Tid)
    requires forall x :: x in g' ==> (x in g && g[x] == g'[x]) || g'[x] !in g'
    requires Reaches(g', u, v) && v in g'
    ensures Reaches(g, u, v)
  {
    var n: nat :| Chain(g', u, n) == Some(v);
    ChainAvoidsSinks(g, g', u, n, v);
  }

  lemma CycleAvoidsSinks(g: Graph, g': Graph, u: Tid)
    requires forall x :: x in g' ==> (x in g && g[x] == g'[x]) || g'[x] !in g'
    requires OnCycle(g', u)
    ensures OnCycle(g, u)
  {
    var n: nat :| 0 < n && Chain(g', u, n) == Some(u);
    ChainAvoidsSinks(g, g', u, n, u);
  }

  /** Removing edges, and adding edges into threads that wait for nobody, closes no cycle. */
  lemma NewEdgesIntoSinksKeepAcyclic(g: Graph, g': Graph)
    requires Acyclic(g)
    requires forall x :: x in g' ==> (x in g && g[x] == g'[x]) || g'[x] !in g'
    ensures Acyclic(g')
  {
    forall u: Tid
      ensures !OnCycle(g', u)
    {
      if OnCycle(g', u) {
        CycleAvoidsSinks(g, g', u);
      }
    }
  }

  /** A path in the graph with the edge `t -> o` either ignores that edge or first reaches `t`, after `k` steps. */
  lemma {:induction false} ChainWithNewEdge(g: Graph, t: Tid, o: Tid, u: Tid, n: nat) returns (k: nat)
    requires t !in g
    requires Chain(g[t := o], u, n).Some?
    ensures Chain(g, u, n) == Chain(g[t := o], u, n) || (k < n && Chain(g, u, k) == Some(t))
    decreases n
  {
    if n == 0 || u == t {
      k := 0;
    } else {
      k := ChainWithNewEdge(g, t, o, g[u], n - 1);
      k := k + 1;
    }
  }

  lemma CycleThroughNewEdge(g: Graph, t: Tid, o: Tid, u: Tid, n: nat)
    requires t !in g && Acyclic(g)
    requires 0 < n && Chain(g[t := o], u, n) == Some(u)
    ensures Reaches(g, o, t)
  {
    var g' := g[t := o];
    assert !OnCycle(g, u);
    var k := ChainWithNewEdge(g, t, o, u, n);
    assert Chain(g, u, k) == Some(t);
    ChainInLargerGraph(g, g', u, k);
    ChainAppend(g', u, n, k);
    ChainAppend(g', u, k, n);
    assert Chain(g', t, n) == Some(t);
    assert Chain(g', o, n - 1) == Some(t);
    var j := ChainWithNewEdge(g, t, o, o, n - 1);
  }

  /** A new wait of `t` for `o` deadlocks exactly when `o` already waits, directly or not, for `t`. */
  lemma NewEdgeClosesCycleIff(g: Graph, t: Tid, o: Tid)
    requires t !in g
    ensures Acyclic(g[t := o]) <==> Acyclic(g) && !Reaches(g, o, t)
  {
    var g' := g[t := o];
    if Acyclic(g') {
      forall u: Tid
        ensures !OnCycle(g, u)
      {
        if OnCycle(g, u) {
          CycleInLargerGraph(g, g', u);
        }
      }
      if Reaches(g, o, t) {
        var k: nat :| Chain(g, o, k) == Some(t);
        ChainInLargerGraph(g, g', o, k);
        ReachingBackIsCyclic(g', t, k);
      }
    }
    if Acyclic(g) && !Reaches(g, o, t) {
      forall u: Tid
        ensures !OnCycle(g', u)
      {
        if OnCycle(g', u) {
          var n: nat :| 0 < n && Chain(g', u, n) == Some(u);
          CycleThroughNewEdge(g, t, o, u, n);
        }
      }
    }
  }

  /** Along an edge out of a node on no cycle the set of ancestors grows strictly. */
  lemma AncestorsGrow(g: Graph, nodes: set<Tid>, u: Tid)
    requires !OnCycle(g, u) && u in g && g[u] in nodes
    ensures Ancestors(g, nodes, u) < Ancestors(g, nodes, g[u])
  {
    var v := g[u];
    ReachesSelf(g, v);
    EdgeReaches(g, u, v);
    forall x | x in Ancestors(g, nodes, u)
      ensures x in Ancestors(g, nodes, v)
    {
      ReachesTransitive(g, x, u, v);
    }
    assert v in Ancestors(g, nodes, v);
    if v in Ancestors(g, nodes, u) {
      var n: nat :| Chain(g, v, n) == Some(u);
      ReachingBackIsCyclic(g, u, n);
    }
  }
}
