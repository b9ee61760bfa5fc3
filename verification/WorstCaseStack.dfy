/**
 The worst-case stack computation of tools/WCS.py: a depth-first walk over a
 call graph that may have cycles, with results memoised in the same dictionaries
 that describe the functions.
 */
module WorstCaseStack {
  import opened Wrappers

  /** Globals are found by name, locals by name and translation unit. */
  datatype Fxn = Global(name: string) | Local(name: string, tu: string)

  datatype Source = Source(tu: string, calls: set<string>, hasPtrCall: bool, localStack: int)

  /** Calls resolved: `succ` is the `r_calls` list of each function. */
  datatype Graph = Graph(sources: map<Fxn, Source>, succ: map<Fxn, seq<Fxn>>, missing: map<Fxn, set<string>>)

  datatype Wcs = Unbounded | Bounded(depth: int)

  // ----- resolving calls

  /** `find_fxn`: a global hides a local of the same name. */
  function FindFxn(sources: map<Fxn, Source>, tu: string, call: string): Option<Fxn> {
    if Global(call) in sources then Some(Global(call))
    else if Local(call, tu) in sources then Some(Local(call, tu))
    else None
  }

  /** A call is to the global function of its name, else to the local one of its own translation unit, else to nothing known. */
  lemma FindFxnIs(sources: map<Fxn, Source>, tu: string, call: string, f: Fxn)
    ensures FindFxn(sources, tu, call) == Some(f) <==>
            f in sources && (f == Global(call) || (f == Local(call, tu) && Global(call) !in sources))
  {
  }

  /** Every call of `f` is either in `succ` or in `missing`, and nothing else is. */
  ghost predicate Resolved(g: Graph, f: Fxn)
    requires f in g.sources && f in g.succ && f in g.missing
  {
    var src := g.sources[f];
    && (forall h :: h in g.succ[f] <==> exists c :: c in src.calls && FindFxn(g.sources, src.tu, c) == Some(h))
    && (forall c :: c in g.missing[f] <==> c in src.calls && FindFxn(g.sources, src.tu, c).None?)
  }

  ghost predicate ValidGraph(g: Graph) {
    && g.succ.Keys == g.sources.Keys && g.missing.Keys == g.sources.Keys
    && (forall f :: f in g.sources ==> Resolved(g, f))
  }

  /** The inner function of `resolve_all_calls`, visiting the set of calls in any order. */
  method ResolveCalls(sources: map<Fxn, Source>, f: Fxn) returns (succ: seq<Fxn>, missing: set<string>)
    requires f in sources
    ensures forall h :: h in succ <==> exists c :: c in sources[f].calls && FindFxn(sources, sources[f].tu, c) == Some(h)
    ensures forall c :: c in missing <==> c in sources[f].calls && FindFxn(sources, sources[f].tu, c).None?
  {
    succ, missing := [], {};
    var calls, tu := sources[f].calls, sources[f].tu;
    var rest := calls;
    while rest != {}
      invariant rest <= calls
      invariant forall h :: h in succ <==> exists c :: c in calls - rest && FindFxn(sources, tu, c) == Some(h)
      invariant forall c :: c in missing <==> c in calls - rest && FindFxn(sources, tu, c).None?
    {
      var call :| call in rest;
      var found := FindFxn(sources, tu, call);
      ghost var succ0, rest0 := succ, rest;
      if found.Some? {
        succ := succ + [found.value];
      } else {
        missing := missing + {call};
      }
      rest := rest - {call};
      forall h
        ensures h in succ <==> exists c :: c in calls - rest && FindFxn(sources, tu, c) == Some(h)
      {
        assert h in succ <==> h in succ0 || found == Some(h);
        if found == Some(h) {
          assert call in calls - rest && FindFxn(sources, tu, call) == Some(h);
        }
        if c :| c in calls - rest && FindFxn(sources, tu, c) == Some(h) && c != call {
          assert c in calls - rest0;
        }
        if c :| c in calls - rest0 && FindFxn(sources, tu, c) == Some(h) {
          assert c in calls - rest;
        }
      }
    }
  }

  /** `resolve_all_calls`. */
  method ResolveAllCalls(sources: map<Fxn, Source>) returns (g: Graph)
    ensures g.sources == sources && ValidGraph(g)
  {
    var succ: map<Fxn, seq<Fxn>>, missing: map<Fxn, set<string>> := map[], map[];
    var rest := sources.Keys;
    while rest != {}
      invariant rest <= sources.Keys
      invariant succ.Keys == missing.Keys == sources.Keys - rest
      invariant forall f :: f in sources.Keys - rest ==> Resolved(Graph(sources, succ, missing), f)
    {
      var f :| f in rest;
      var s, m := ResolveCalls(sources, f);
      ghost var before := Graph(sources, succ, missing);
      succ, missing := succ[f := s], missing[f := m];
      rest := rest - {f};
      forall h | h in sources.Keys - rest
        ensures Resolved(Graph(sources, succ, missing), h)
      {
        if h != f {
          assert Resolved(before, h);
        }
      }
    }
    g := Graph(sources, succ, missing);
  }

  lemma SuccInGraph(g: Graph, f: Fxn, h: Fxn)
    requires ValidGraph(g) && f in g.sources && h in g.succ[f]
    ensures h in g.sources
  {
    assert Resolved(g, f);
  }

  // ----- what the result should be

  /** A chain of calls. */
  ghost predicate IsPath(g: Graph, p: seq<Fxn>) {
    && p != []
    && (forall i :: 0 <= i < |p| ==> p[i] in g.sources && p[i] in g.succ)
    && (forall i, j :: 0 <= i && j == i + 1 && j < |p| ==> p[j] in g.succ[p[i]])
  }

  ghost predicate PathFrom(g: Graph, p: seq<Fxn>, f: Fxn) {
    IsPath(g, p) && p[0] == f
  }

  ghost function Weight(g: Graph, p: seq<Fxn>): int
    requires forall i :: 0 <= i < |p| ==> p[i] in g.sources
  {
    if p == [] then 0 else g.sources[p[0]].localStack + Weight(g, p[1..])
  }

  /** The weight of a chain is the sum of the stacks of its functions. */
  lemma {:induction false} WeightAdds(g: Graph, p: seq<Fxn>, q: seq<Fxn>)
    requires forall f :: f in p || f in q ==> f in g.sources
    ensures Weight(g, p + q) == Weight(g, p) + Weight(g, q)
    ensures |p| == 1 ==> Weight(g, p) == g.sources[p[0]].localStack
  {
    if p == [] {
      assert p + q == q;
    } else {
      assert (p + q)[0] == p[0] && (p + q)[1..] == p[1..] + q;
      WeightAdds(g, p[1..], q);
    }
  }

  /** The chain ends in a function that calls through a pointer, or visits some function twice. */
  ghost predicate Hopeless(g: Graph, p: seq<Fxn>)
    requires IsPath(g, p)
  {
    g.sources[p[|p| - 1]].hasPtrCall || exists i, j :: 0 <= i < j < |p| && p[i] == p[j]
  }

  ghost predicate HasNoBound(g: Graph, f: Fxn) {
    exists p :: PathFrom(g, p, f) && Hopeless(g, p)
  }

  /** `n` is the weight of the heaviest chain of calls from `f`. */
  ghost predicate IsDeepest(g: Graph, f: Fxn, n: int) {
    && (forall p :: PathFrom(g, p, f) ==> Weight(g, p) <= n)
    && (exists p :: PathFrom(g, p, f) && Weight(g, p) == n)
  }

  /** The calls nobody can resolve, of all functions some chain from `f` ends in. */
  ghost predicate ReachesMissing(g: Graph, f: Fxn, c: string) {
    exists p :: PathFrom(g, p, f) && p[|p| - 1] in g.missing && c in g.missing[p[|p| - 1]]
  }

  // ----- what the walk maintains

  /** A memo: results, the sets of unresolved calls so far, and (a history variable) the order of the bounded results. */
  datatype Memo = Memo(wcs: map<Fxn, Wcs>, unresolved: map<Fxn, set<string>>, rank: map<Fxn, nat>)

  ghost predicate IsBounded(m: Memo, f: Fxn) {
    f in m.wcs && m.wcs[f].Bounded?
  }

  /** The largest bound of the functions in `hs`, or 0. */
  ghost predicate IsMaxOf(m: Memo, hs: seq<Fxn>, n: int) {
    && n >= 0
    && (forall h :: h in hs ==> IsBounded(m, h) && m.wcs[h].depth <= n)
    && (n == 0 || exists h :: h in hs && IsBounded(m, h) && m.wcs[h].depth == n)
  }

  /** `found` is `own` with the unresolved calls of `hs`. */
  ghost predicate IsUnionOf(m: Memo, own: set<string>, hs: seq<Fxn>, found: set<string>) {
    forall c :: c in found <==> c in own || exists h :: h in hs && h in m.unresolved && c in m.unresolved[h]
  }

  /** A bounded result is what the results of the callees, all older, say. */
  ghost predicate BoundedOk(g: Graph, m: Memo, f: Fxn)
    requires f in g.sources && f in g.succ && f in g.missing && IsBounded(m, f)
  {
    && !g.sources[f].hasPtrCall
    && f in m.unresolved && f in m.rank
    && IsMaxOf(m, g.succ[f], m.wcs[f].depth - g.sources[f].localStack)
    && IsUnionOf(m, g.missing[f], g.succ[f], m.unresolved[f])
    && (forall h :: h in g.succ[f] ==> h in m.rank && m.rank[h] < m.rank[f])
  }

  ghost predicate MemoOk(g: Graph, m: Memo, parents: seq<Fxn>) {
    && ValidGraph(g)
    && m.wcs.Keys <= g.sources.Keys && m.unresolved.Keys == g.sources.Keys
    && (forall f {:trigger IsBounded(m, f)} :: f in g.sources && IsBounded(m, f) ==> BoundedOk(g, m, f))
    && (forall f {:trigger HasNoBound(g, f)} :: f in m.wcs && m.wcs[f].Unbounded? ==> HasNoBound(g, f))
    && (forall f :: f in g.sources && f !in m.wcs && f !in parents ==> m.unresolved[f] == g.missing[f])
  }

  // ----- bounded results are right

  /** All functions on a chain from a bounded one are bounded, ever older, and call no pointers. */
  lemma {:induction false} BoundedPath(g: Graph, m: Memo, ps: seq<Fxn>, p: seq<Fxn>, i: nat)
    requires MemoOk(g, m, ps) && IsPath(g, p) && IsBounded(m, p[0]) && i < |p|
    ensures IsBounded(m, p[i]) && !g.sources[p[i]].hasPtrCall
    ensures p[i] in m.rank && p[0] in m.rank && m.rank[p[i]] + i <= m.rank[p[0]]
  {
    assert BoundedOk(g, m, p[0]);
    if i > 0 {
      BoundedPath(g, m, ps, p, i - 1);
      assert BoundedOk(g, m, p[i - 1]);
      assert p[i] in g.succ[p[i - 1]];
      assert BoundedOk(g, m, p[i]);
    }
  }

  lemma SuffixIsPath(g: Graph, p: seq<Fxn>, i: nat)
    requires IsPath(g, p) && i < |p|
    ensures IsPath(g, p[i..]) && p[i..][0] == p[i] && p[i..][|p| - i - 1] == p[|p| - 1]
  {
  }

  lemma BoundedDoesNotRepeat(g: Graph, m: Memo, ps: seq<Fxn>, p: seq<Fxn>, i: nat, j: nat)
    requires MemoOk(g, m, ps) && IsPath(g, p) && IsBounded(m, p[0]) && i < j < |p|
    ensures p[i] != p[j]
  {
    hide MemoOk;
    BoundedPath(g, m, ps, p, i);
    SuffixIsPath(g, p, i);
    BoundedPath(g, m, ps, p[i..], j - i);
    assert p[i..][j - i] == p[j];
  }

  lemma BoundedIsNotHopeless(g: Graph, m: Memo, ps: seq<Fxn>, f: Fxn)
    requires MemoOk(g, m, ps) && f in g.sources && IsBounded(m, f)
    ensures !HasNoBound(g, f)
  {
    hide MemoOk;
    forall p | PathFrom(g, p, f)
      ensures !Hopeless(g, p)
    {
      BoundedPath(g, m, ps, p, |p| - 1);
      forall i, j | 0 <= i < j < |p|
        ensures p[i] != p[j]
      {
        BoundedDoesNotRepeat(g, m, ps, p, i, j);
      }
    }
  }

  lemma {:induction false} BoundedIsUpper(g: Graph, m: Memo, ps: seq<Fxn>, p: seq<Fxn>)
    requires MemoOk(g, m, ps) && IsPath(g, p) && IsBounded(m, p[0])
    ensures Weight(g, p) <= m.wcs[p[0]].depth
    decreases |p|
  {
    assert BoundedOk(g, m, p[0]);
    if |p| == 1 {
      assert p[1..] == [];
      assert Weight(g, p[1..]) == 0;
    } else {
      assert p[1] in g.succ[p[0]];
      BoundedIsUpper(g, m, ps, p[1..]);
    }
  }

  lemma PrependPath(g: Graph, f: Fxn, p: seq<Fxn>)
    requires f in g.sources && f in g.succ && IsPath(g, p) && p[0] in g.succ[f]
    ensures PathFrom(g, [f] + p, f) && Weight(g, [f] + p) == g.sources[f].localStack + Weight(g, p)
    ensures Hopeless(g, p) ==> Hopeless(g, [f] + p)
  {
    var q := [f] + p;
    assert q[1..] == p;
    forall i, j | 0 <= i < j < |p| && p[i] == p[j]
      ensures Hopeless(g, q)
    {
      assert q[i + 1] == q[j + 1];
    }
  }

  lemma SinglePath(g: Graph, f: Fxn)
    requires f in g.sources && f in g.succ
    ensures PathFrom(g, [f], f) && Weight(g, [f]) == g.sources[f].localStack
  {
    assert [f][1..] == [];
    assert Weight(g, [f][1..]) == 0;
  }

  lemma {:induction false} BoundedIsAttained(g: Graph, m: Memo, ps: seq<Fxn>, f: Fxn) returns (p: seq<Fxn>)
    requires MemoOk(g, m, ps) && f in g.sources && IsBounded(m, f) && f in m.rank
    ensures PathFrom(g, p, f) && Weight(g, p) == m.wcs[f].depth
    decreases m.rank[f]
  {
    assert BoundedOk(g, m, f);
    var n := m.wcs[f].depth - g.sources[f].localStack;
    if n == 0 {
      SinglePath(g, f);
      p := [f];
    } else {
      var h :| h in g.succ[f] && IsBounded(m, h) && m.wcs[h].depth == n;
      SuccInGraph(g, f, h);
      var q := BoundedIsAttained(g, m, ps, h);
      PrependPath(g, f, q);
      p := [f] + q;
    }
  }

  lemma {:induction false} FoundIsReached(g: Graph, m: Memo, ps: seq<Fxn>, f: Fxn, c: string)
    requires MemoOk(g, m, ps) && f in g.sources && IsBounded(m, f) && f in m.rank && c in m.unresolved[f]
    ensures ReachesMissing(g, f, c)
    decreases m.rank[f]
  {
    assert BoundedOk(g, m, f);
    if c in g.missing[f] {
      SinglePath(g, f);
      assert PathFrom(g, [f], f) && [f][|[f]| - 1] == f;
    } else {
      var h :| h in g.succ[f] && h in m.unresolved && c in m.unresolved[h];
      SuccInGraph(g, f, h);
      FoundIsReached(g, m, ps, h, c);
      var p :| PathFrom(g, p, h) && p[|p| - 1] in g.missing && c in g.missing[p[|p| - 1]];
      PrependPath(g, f, p);
      assert ([f] + p)[|[f] + p| - 1] == p[|p| - 1];
    }
  }

  lemma {:induction false} ReachedIsFound(g: Graph, m: Memo, ps: seq<Fxn>, p: seq<Fxn>, c: string)
    requires MemoOk(g, m, ps) && IsPath(g, p) && IsBounded(m, p[0])
    requires p[|p| - 1] in g.missing && c in g.missing[p[|p| - 1]]
    ensures c in m.unresolved[p[0]]
    decreases |p|
  {
    assert BoundedOk(g, m, p[0]);
    if |p| > 1 {
      assert p[1] in g.succ[p[0]];
      SuffixIsPath(g, p, 1);
      hide MemoOk, IsPath;
      ReachedIsFound(g, m, ps, p[1..], c);
    }
  }

  /** Whatever order it was filled in, a memo of all functions is the answer. */
  lemma MemoIsCorrect(g: Graph, m: Memo, f: Fxn)
    requires MemoOk(g, m, []) && f in g.sources && f in m.wcs
    ensures m.wcs[f].Unbounded? <==> HasNoBound(g, f)
    ensures m.wcs[f].Bounded? ==> IsDeepest(g, f, m.wcs[f].depth)
    ensures m.wcs[f].Bounded? ==> forall c :: c in m.unresolved[f] <==> ReachesMissing(g, f, c)
  {
    if m.wcs[f].Bounded? {
      assert IsBounded(m, f) && BoundedOk(g, m, f);
      BoundedIsNotHopeless(g, m, [], f);
      forall p | PathFrom(g, p, f)
        ensures Weight(g, p) <= m.wcs[f].depth
      {
        BoundedIsUpper(g, m, [], p);
      }
      var p := BoundedIsAttained(g, m, [], f);
      forall c
        ensures c in m.unresolved[f] <==> ReachesMissing(g, f, c)
      {
        if c in m.unresolved[f] {
          FoundIsReached(g, m, [], f, c);
        }
        if p :| PathFrom(g, p, f) && p[|p| - 1] in g.missing && c in g.missing[p[|p| - 1]] {
          ReachedIsFound(g, m, [], p, c);
        }
      }
    }
  }

  // ----- steps of the walk

  /** `m'` has all results of `m`, unchanged. */
  ghost predicate Grows(m: Memo, m': Memo) {
    && (forall h :: h in m.wcs ==> h in m'.wcs && m'.wcs[h] == m.wcs[h])
    && (forall h :: h in m.wcs && h in m.unresolved ==> h in m'.unresolved && m'.unresolved[h] == m.unresolved[h])
    && (forall h :: h in m.rank ==> h in m'.rank && m'.rank[h] == m.rank[h])
  }

  lemma BoundedOkGrows(g: Graph, m: Memo, m': Memo, f: Fxn)
    requires ValidGraph(g) && f in g.sources && IsBounded(m, f) && BoundedOk(g, m, f) && Grows(m, m')
    requires m.unresolved.Keys == g.sources.Keys
    ensures IsBounded(m', f) && BoundedOk(g, m', f)
  {
    forall h | h in g.succ[f]
      ensures h in m.unresolved
    {
      SuccInGraph(g, f, h);
    }
    UnionGrows(m, m', g.missing[f], g.succ[f], m.unresolved[f]);
    MaxGrows(m, m', g.succ[f], m.wcs[f].depth - g.sources[f].localStack);
  }

  lemma UnionGrows(m: Memo, m': Memo, own: set<string>, hs: seq<Fxn>, found: set<string>)
    requires IsUnionOf(m, own, hs, found) && Grows(m, m')
    requires forall h :: h in hs ==> h in m.wcs && h in m.unresolved
    ensures IsUnionOf(m', own, hs, found)
  {
  }

  lemma MaxGrows(m: Memo, m': Memo, hs: seq<Fxn>, n: int)
    requires IsMaxOf(m, hs, n) && Grows(m, m')
    ensures IsMaxOf(m', hs, n)
  {
    if n != 0 {
      var h :| h in hs && IsBounded(m, h) && m.wcs[h].depth == n;
      assert IsBounded(m', h);
    }
  }

  ghost function WithWcs(m: Memo, f: Fxn, w: Wcs): Memo {
    m.(wcs := m.wcs[f := w])
  }

  /** `f` turns out to have no bound. */
  lemma MarkUnbounded(g: Graph, m: Memo, ps: seq<Fxn>, ps': seq<Fxn>, f: Fxn)
    requires MemoOk(g, m, ps) && f in g.sources && HasNoBound(g, f) && (f in m.wcs ==> m.wcs[f].Unbounded?)
    requires forall x :: x in ps && x != f ==> x in ps'
    ensures MemoOk(g, WithWcs(m, f, Unbounded), ps') && Grows(m, WithWcs(m, f, Unbounded))
  {
    var m' := WithWcs(m, f, Unbounded);
    forall x | x in g.sources && IsBounded(m', x)
      ensures BoundedOk(g, m', x)
    {
      assert IsBounded(m, x);
      BoundedOkGrows(g, m, m', x);
    }
  }

  /** The set of `f`, which is still being worked on, changes. */
  lemma AddUnresolved(g: Graph, m: Memo, ps: seq<Fxn>, f: Fxn, found: set<string>)
    requires MemoOk(g, m, ps) && f in ps && f in g.sources && f !in m.wcs
    ensures var m' := m.(unresolved := m.unresolved[f := found]);
      MemoOk(g, m', ps) && Grows(m, m')
  {
    var m' := m.(unresolved := m.unresolved[f := found]);
    forall x | x in g.sources && IsBounded(m', x)
      ensures BoundedOk(g, m', x)
    {
      assert IsBounded(m, x);
      BoundedOkGrows(g, m, m', x);
    }
  }

  ghost function Finished(g: Graph, m: Memo, f: Fxn, n: int, clock: nat): Memo
    requires f in g.sources
  {
    Memo(m.wcs[f := Bounded(n + g.sources[f].localStack)], m.unresolved, m.rank[f := clock])
  }

  lemma FinishedOk(g: Graph, m: Memo, ps: seq<Fxn>, f: Fxn, n: int, clock: nat)
    requires MemoOk(g, m, ps) && f in g.sources && f !in m.wcs && !g.sources[f].hasPtrCall && f !in m.rank
    requires IsMaxOf(m, g.succ[f], n) && f in m.unresolved && IsUnionOf(m, g.missing[f], g.succ[f], m.unresolved[f])
    requires forall h :: h in m.rank ==> m.rank[h] < clock
    ensures Grows(m, Finished(g, m, f, n, clock)) && BoundedOk(g, Finished(g, m, f, n, clock), f)
  {
    var m' := Finished(g, m, f, n, clock);
    MaxGrows(m, m', g.succ[f], n);
    forall h | h in g.succ[f]
      ensures h in m.wcs && h in m.unresolved && h in m.rank
    {
      SuccInGraph(g, f, h);
      assert IsBounded(m, h);
      assert BoundedOk(g, m, h);
    }
    UnionGrows(m, m', g.missing[f], g.succ[f], m.unresolved[f]);
  }

  lemma FinishedOthers(g: Graph, m: Memo, ps: seq<Fxn>, f: Fxn, n: int, clock: nat)
    requires MemoOk(g, m, ps) && f in g.sources && f !in m.wcs
    requires Grows(m, Finished(g, m, f, n, clock)) && IsBounded(Finished(g, m, f, n, clock), f)
    requires f in g.succ && f in g.missing && BoundedOk(g, Finished(g, m, f, n, clock), f)
    ensures forall x {:trigger IsBounded(Finished(g, m, f, n, clock), x)} ::
              x in g.sources && IsBounded(Finished(g, m, f, n, clock), x) ==>
              x in g.succ && x in g.missing && BoundedOk(g, Finished(g, m, f, n, clock), x)
  {
    var m' := Finished(g, m, f, n, clock);
    forall x | x in g.sources && IsBounded(m', x)
      ensures BoundedOk(g, m', x)
    {
      if x != f {
        assert IsBounded(m, x);
        BoundedOkGrows(g, m, m', x);
      }
    }
  }

  /** All callees of `f` are bounded, so `f` is. */
  lemma MarkBounded(g: Graph, m: Memo, ps: seq<Fxn>, f: Fxn, n: int, clock: nat)
    requires MemoOk(g, m, ps + [f]) && f in g.sources && f !in m.wcs && !g.sources[f].hasPtrCall && f !in m.rank
    requires IsMaxOf(m, g.succ[f], n) && f in m.unresolved && IsUnionOf(m, g.missing[f], g.succ[f], m.unresolved[f])
    requires forall h :: h in m.rank ==> m.rank[h] < clock
    ensures MemoOk(g, Finished(g, m, f, n, clock), ps) && Grows(m, Finished(g, m, f, n, clock))
  {
    var m' := Finished(g, m, f, n, clock);
    FinishedOk(g, m, ps + [f], f, n, clock);
    FinishedOthers(g, m, ps + [f], f, n, clock);
    forall x | x in g.sources && x !in m'.wcs && x !in ps
      ensures m'.unresolved[x] == g.missing[x]
    {
      assert x !in ps + [f];
    }
  }

  /** The first `i` callees of `f` are bounded, and what they contribute has been collected. */
  ghost predicate InProgress(g: Graph, m: Memo, ps: seq<Fxn>, f: Fxn, i: nat, callMax: int) {
    && MemoOk(g, m, ps + [f])
    && f in g.sources && f in m.unresolved && f !in m.wcs && i <= |g.succ[f]|
    && IsMaxOf(m, g.succ[f][..i], callMax)
    && IsUnionOf(m, g.missing[f], g.succ[f][..i], m.unresolved[f])
  }

  ghost function Collected(m: Memo, f: Fxn, h: Fxn): Memo
    requires f in m.unresolved && h in m.unresolved
  {
    m.(unresolved := m.unresolved[f := m.unresolved[f] + m.unresolved[h]])
  }

  lemma CollectStep(g: Graph, m0: Memo, m: Memo, ps: seq<Fxn>, f: Fxn, i: nat, callMax: int)
    requires InProgress(g, m0, ps, f, i, callMax) && i < |g.succ[f]|
    requires Grows(m0, m) && MemoOk(g, m, ps + [f]) && f !in m.wcs && m.unresolved[f] == m0.unresolved[f]
    requires IsBounded(m, g.succ[f][i])
    ensures g.succ[f][i] in m.unresolved
    ensures var d := m.wcs[g.succ[f][i]].depth;
      InProgress(g, Collected(m, f, g.succ[f][i]), ps, f, i + 1, if callMax < d then d else callMax)
    ensures Grows(m, Collected(m, f, g.succ[f][i]))
  {
    var hs := g.succ[f];
    SuccInGraph(g, f, hs[i]);
    forall h | h in hs
      ensures h in m0.unresolved && h in m.unresolved
    {
      SuccInGraph(g, f, h);
    }
    assert forall h :: h in hs[..i] ==> IsBounded(m0, h);
    AddUnresolved(g, m, ps + [f], f, m.unresolved[f] + m.unresolved[hs[i]]);
    hide MemoOk;
    var m' := Collected(m, f, hs[i]);
    MaxGrows(m0, m, hs[..i], callMax);
    MaxStep(m, hs, i, callMax);
    MaxGrows(m, m', hs[..i + 1], if callMax < m.wcs[hs[i]].depth then m.wcs[hs[i]].depth else callMax);
    UnionGrows(m0, m, g.missing[f], hs[..i], m.unresolved[f]);
    UnionStep(m, g.missing[f], hs, i, m.unresolved[f]);
    assert forall h :: h in hs[..i + 1] ==> IsBounded(m, h);
    UnionGrows(m, m', g.missing[f], hs[..i + 1], m.unresolved[f] + m.unresolved[hs[i]]);
  }

  lemma NothingCollected(g: Graph, m: Memo, ps: seq<Fxn>, f: Fxn)
    requires MemoOk(g, m, ps) && f in g.sources && f !in m.wcs && f !in ps
    ensures InProgress(g, m, ps, f, 0, 0)
  {
    forall x | x in g.sources && IsBounded(m, x)
      ensures BoundedOk(g, m, x)
    {
    }
  }

  lemma AllCollected(g: Graph, m: Memo, ps: seq<Fxn>, f: Fxn, n: int, clock: nat)
    requires f in g.sources && f in g.succ && InProgress(g, m, ps, f, |g.succ[f]|, n) && !g.sources[f].hasPtrCall
    requires m.rank.Keys <= m.wcs.Keys && forall h :: h in m.rank ==> m.rank[h] < clock
    ensures MemoOk(g, Finished(g, m, f, n, clock), ps) && Grows(m, Finished(g, m, f, n, clock))
  {
    assert g.succ[f][..|g.succ[f]|] == g.succ[f];
    MarkBounded(g, m, ps, f, n, clock);
  }

  lemma GraphFacts(g: Graph, m: Memo, ps: seq<Fxn>)
    requires MemoOk(g, m, ps)
    ensures ValidGraph(g) && g.succ.Keys == g.sources.Keys && g.missing.Keys == g.sources.Keys
    ensures m.unresolved.Keys == g.sources.Keys
  {
  }

  lemma UnboundedInMemo(g: Graph, m: Memo, ps: seq<Fxn>, f: Fxn)
    requires MemoOk(g, m, ps) && f in m.wcs && m.wcs[f].Unbounded?
    ensures HasNoBound(g, f)
  {
  }

  lemma GrowsTransitive(m: Memo, m': Memo, m'': Memo)
    requires Grows(m, m') && Grows(m', m'')
    ensures Grows(m, m'')
  {
  }

  lemma UnionStep(m: Memo, own: set<string>, hs: seq<Fxn>, i: nat, found: set<string>)
    requires i < |hs| && IsUnionOf(m, own, hs[..i], found) && hs[i] in m.unresolved
    ensures IsUnionOf(m, own, hs[..i + 1], found + m.unresolved[hs[i]])
  {
    assert hs[..i + 1] == hs[..i] + [hs[i]];
  }

  lemma MaxStep(m: Memo, hs: seq<Fxn>, i: nat, n: int)
    requires i < |hs| && IsMaxOf(m, hs[..i], n) && IsBounded(m, hs[i])
    ensures IsMaxOf(m, hs[..i + 1], if n < m.wcs[hs[i]].depth then m.wcs[hs[i]].depth else n)
  {
    assert hs[..i + 1] == hs[..i] + [hs[i]];
    assert hs[i] in hs[..i + 1];
  }

  // ----- the stack of functions being worked on

  /** `parents` is a chain of calls without repetition, and its last member calls `f`. */
  ghost predicate CallChain(g: Graph, parents: seq<Fxn>, f: Fxn) {
    IsPath(g, parents + [f]) && forall i, j :: 0 <= i < j < |parents| ==> parents[i] != parents[j]
  }

  lemma RecursionIsHopeless(g: Graph, parents: seq<Fxn>, f: Fxn)
    requires CallChain(g, parents, f) && f in parents
    ensures HasNoBound(g, f)
  {
    var i: nat :| i < |parents| && parents[i] == f;
    var p := parents + [f];
    SuffixIsPath(g, p, i);
    assert p[i..][0] == f && p[i..][|parents| - i] == f;
    assert PathFrom(g, p[i..], f) && Hopeless(g, p[i..]);
  }

  lemma PointerCallIsHopeless(g: Graph, f: Fxn)
    requires f in g.sources && f in g.succ && g.sources[f].hasPtrCall
    ensures HasNoBound(g, f)
  {
    SinglePath(g, f);
    assert PathFrom(g, [f], f) && Hopeless(g, [f]);
  }

  lemma CallerIsHopeless(g: Graph, f: Fxn, h: Fxn)
    requires f in g.sources && f in g.succ && h in g.succ[f] && HasNoBound(g, h)
    ensures HasNoBound(g, f)
  {
    var p :| PathFrom(g, p, h) && Hopeless(g, p);
    PrependPath(g, f, p);
  }

  lemma ExtendChain(g: Graph, parents: seq<Fxn>, f: Fxn, h: Fxn)
    requires ValidGraph(g) && CallChain(g, parents, f) && f !in parents && f in g.sources && h in g.succ[f]
    ensures CallChain(g, parents + [f], h) && h in g.sources
  {
    SuccInGraph(g, f, h);
    var p := parents + [f] + [h];
    assert p[..|p| - 1] == parents + [f];
    forall i, j | 0 <= i && j == i + 1 && j < |p|
      ensures p[j] in g.succ[p[i]]
    {
      assert j < |p| - 1 ==> (parents + [f])[j] in g.succ[(parents + [f])[i]];
    }
  }

  /** The history variables are in order. */
  ghost predicate Ranked(m: Memo, clock: nat) {
    m.rank.Keys <= m.wcs.Keys && forall h :: h in m.rank ==> m.rank[h] < clock
  }

  /** Nothing is known yet about the functions being worked on. */
  ghost predicate Open(m: Memo, ps: seq<Fxn>) {
    forall p :: p in ps ==> p !in m.wcs
  }

  /** Nothing has been added to the sets of the functions being worked on. */
  ghost predicate Untouched(m: Memo, m': Memo, ps: seq<Fxn>) {
    forall p :: p in ps && p in m.unresolved && p in m'.unresolved ==> m'.unresolved[p] == m.unresolved[p]
  }

  /** What a call of `calc_wcs` for `f` does to the memo, with `ps` on the stack. */
  ghost predicate Calculated(g: Graph, m: Memo, m': Memo, ps: seq<Fxn>, f: Fxn, clock: nat) {
    && MemoOk(g, m', ps) && Ranked(m', clock)
    && Grows(m, m') && f in m'.wcs && (m'.wcs[f].Bounded? ==> Open(m', ps))
    && Untouched(m, m', ps)
  }

  /** When it may be called: nothing is known about the callers on the stack. */
  ghost predicate CanCalculate(g: Graph, m: Memo, ps: seq<Fxn>, f: Fxn, clock: nat) {
    MemoOk(g, m, ps) && Ranked(m, clock) && Open(m, ps) && f in g.sources && CallChain(g, ps, f)
  }

  lemma AlreadyCalculated(g: Graph, m: Memo, ps: seq<Fxn>, f: Fxn, clock: nat)
    requires CanCalculate(g, m, ps, f, clock) && f in m.wcs
    ensures Calculated(g, m, m, ps, f, clock)
  {
  }

  /** The two early answers of `calc_wcs`. */
  lemma HopelessAtOnce(g: Graph, m: Memo, ps: seq<Fxn>, f: Fxn, clock: nat)
    requires CanCalculate(g, m, ps, f, clock) && f !in m.wcs && (g.sources[f].hasPtrCall || f in ps)
    ensures Calculated(g, m, WithWcs(m, f, Unbounded), ps, f, clock)
  {
    if g.sources[f].hasPtrCall {
      PointerCallIsHopeless(g, f);
    } else {
      RecursionIsHopeless(g, ps, f);
    }
    MarkUnbounded(g, m, ps, ps, f);
  }

  /** The state of the loop over the calls of `f`, which began in `m0`. */
  ghost predicate Looping(g: Graph, m0: Memo, m: Memo, ps: seq<Fxn>, f: Fxn, i: nat, callMax: int, clock: nat) {
    && InProgress(g, m, ps, f, i, callMax) && Ranked(m, clock) && Open(m, ps)
    && Grows(m0, m) && Untouched(m0, m, ps)
    && CallChain(g, ps, f) && f !in ps && !g.sources[f].hasPtrCall
  }

  lemma LoopStarts(g: Graph, m: Memo, ps: seq<Fxn>, f: Fxn, clock: nat)
    requires CanCalculate(g, m, ps, f, clock) && f !in m.wcs && !g.sources[f].hasPtrCall && f !in ps
    ensures Looping(g, m, m, ps, f, 0, 0, clock) && f in g.succ
  {
    NothingCollected(g, m, ps, f);
  }

  /** The callee may be worked out, with `f` on the stack. */
  lemma LoopCalls(g: Graph, m0: Memo, m: Memo, ps: seq<Fxn>, f: Fxn, i: nat, callMax: int, clock: nat)
    requires Looping(g, m0, m, ps, f, i, callMax, clock) && f in g.succ && i < |g.succ[f]|
    ensures CanCalculate(g, m, ps + [f], g.succ[f][i], clock)
    ensures f in g.sources && f !in ps
  {
    ExtendChain(g, ps, f, g.succ[f][i]);
  }

  /** The callee is bounded: `f` collects its results. */
  lemma LoopGoesOn(g: Graph, m0: Memo, m1: Memo, m: Memo, ps: seq<Fxn>, f: Fxn, i: nat, callMax: int, clock: nat, clock': nat)
    requires Looping(g, m0, m1, ps, f, i, callMax, clock) && f in g.succ && i < |g.succ[f]|
    requires Calculated(g, m1, m, ps + [f], g.succ[f][i], clock') && m.wcs[g.succ[f][i]].Bounded?
    ensures f in m.unresolved && g.succ[f][i] in m.unresolved
    ensures var d := m.wcs[g.succ[f][i]].depth;
      Looping(g, m0, Collected(m, f, g.succ[f][i]), ps, f, i + 1, if callMax < d then d else callMax, clock')
  {
    assert f in ps + [f];
    assert forall p :: p in ps ==> p in ps + [f];
    assert IsBounded(m, g.succ[f][i]);
    CollectStep(g, m1, m, ps, f, i, callMax);
    var m' := Collected(m, f, g.succ[f][i]);
    hide InProgress, CallChain, IsBounded;
    GrowsTransitive(m0, m1, m);
    GrowsTransitive(m0, m, m');
    UntouchedThrough(g, m0, m1, m, ps, f);
  }

  lemma UntouchedThrough(g: Graph, m0: Memo, m1: Memo, m: Memo, ps: seq<Fxn>, f: Fxn)
    requires Untouched(m0, m1, ps) && Untouched(m1, m, ps + [f]) && m1.unresolved.Keys == g.sources.Keys
    requires m.unresolved.Keys == g.sources.Keys
    ensures Untouched(m0, m, ps)
  {
    assert forall p :: p in ps ==> p in ps + [f];
  }

  /** The callee has no bound, so `f` has none. */
  lemma LoopGivesUp(g: Graph, m0: Memo, m1: Memo, m: Memo, ps: seq<Fxn>, f: Fxn, i: nat, callMax: int, clock: nat, clock': nat)
    requires Looping(g, m0, m1, ps, f, i, callMax, clock) && f in g.succ && i < |g.succ[f]|
    requires Calculated(g, m1, m, ps + [f], g.succ[f][i], clock') && m.wcs[g.succ[f][i]].Unbounded?
    requires f !in m0.wcs
    ensures Calculated(g, m0, WithWcs(m, f, Unbounded), ps, f, clock')
  {
    var h := g.succ[f][i];
    UnboundedInMemo(g, m, ps + [f], h);
    CallerIsHopeless(g, f, h);
    StillHopeless(g, m, ps + [f], f);
    MarkUnbounded(g, m, ps + [f], ps, f);
    GrowsTransitive(m0, m1, m);
    GrowsTransitive(m0, m, WithWcs(m, f, Unbounded));
    UntouchedThrough(g, m0, m1, m, ps, f);
  }

  /** A function that has no bound can only be in the memo as such. */
  lemma StillHopeless(g: Graph, m: Memo, ps: seq<Fxn>, f: Fxn)
    requires MemoOk(g, m, ps) && f in g.sources && HasNoBound(g, f)
    ensures f in m.wcs ==> m.wcs[f].Unbounded?
  {
    if f in m.wcs && m.wcs[f].Bounded? {
      BoundedIsNotHopeless(g, m, ps, f);
    }
  }

  lemma LoopEnds(g: Graph, m0: Memo, m: Memo, ps: seq<Fxn>, f: Fxn, callMax: int, clock: nat)
    requires f in g.succ && Looping(g, m0, m, ps, f, |g.succ[f]|, callMax, clock)
    ensures f in g.sources && Calculated(g, m0, Finished(g, m, f, callMax, clock), ps, f, clock + 1)
  {
    AllCollected(g, m, ps, f, callMax, clock);
    GrowsTransitive(m0, m, Finished(g, m, f, callMax, clock));
  }

  class StackAnalysis {
    const g: Graph
    var wcs: map<Fxn, Wcs>
    var unresolved: map<Fxn, set<string>>
    var parents: seq<Fxn>
    ghost var rank: map<Fxn, nat>
    ghost var clock: nat

    ghost function M(): Memo
      reads this
    {
      Memo(wcs, unresolved, rank)
    }

    /** The inner function of `calc_all_wcs`. */
    method CalcWcs(f: Fxn)
      requires CanCalculate(g, M(), parents, f, clock)
      modifies this
      ensures parents == old(parents) && Calculated(g, old(M()), M(), parents, f, clock)
      decreases g.sources.Keys - (set p | p in parents), 1
    {
      ghost var m := M();
      if f in wcs {
        AlreadyCalculated(g, m, parents, f, clock);
        return;
      }
      if g.sources[f].hasPtrCall {
        HopelessAtOnce(g, m, parents, f, clock);
        wcs := wcs[f := Unbounded];
        return;
      }
      if f in parents {
        HopelessAtOnce(g, m, parents, f, clock);
        wcs := wcs[f := Unbounded];
        return;
      }
      CalcCalls(f);
    }

    /** The loop over the calls of a function that is neither known, nor hopeless by itself, nor being worked on. */
    method CalcCalls(f: Fxn)
      requires CanCalculate(g, M(), parents, f, clock)
      requires f !in wcs && f !in parents && !g.sources[f].hasPtrCall
      modifies this
      ensures parents == old(parents) && Calculated(g, old(M()), M(), parents, f, clock)
      decreases g.sources.Keys - (set p | p in parents), 0
    {
      hide Calculated, CanCalculate, Looping;
      ghost var ps, m0 := parents, M();
      LoopStarts(g, m0, ps, f, clock);
      var callMax := 0;
      for i := 0 to |g.succ[f]|
        invariant parents == ps && Looping(g, m0, M(), ps, f, i, callMax, clock)
      {
        var h := g.succ[f][i];
        ghost var m1, clock1 := M(), clock;
        LoopCalls(g, m0, m1, ps, f, i, callMax, clock);
        parents := parents + [f];
        assert (set p | p in parents) == (set p | p in ps) + {f};
        CalcWcs(h);
        parents := parents[..|parents| - 1];
        assert parents == ps;
        HasResult(g, m1, M(), ps + [f], h, clock);
        if wcs[h].Unbounded? {
          LoopGivesUp(g, m0, m1, M(), ps, f, i, callMax, clock1, clock);
          wcs := wcs[f := Unbounded];
          return;
        }
        LoopGoesOn(g, m0, m1, M(), ps, f, i, callMax, clock1, clock);
        callMax := if callMax < wcs[h].depth then wcs[h].depth else callMax;
        unresolved := unresolved[f := unresolved[f] + unresolved[h]];
      }
      LoopEnds(g, m0, M(), ps, f, callMax, clock);
      wcs := wcs[f := Bounded(callMax + g.sources[f].localStack)];
      rank, clock := rank[f := clock], clock + 1;
    }

    /** After `resolve_all_calls`; the functions of the manual stack file have their results already. */
    constructor (graph: Graph, manual: set<Fxn>)
      requires ValidGraph(graph) && manual <= graph.sources.Keys
      requires forall f :: f in manual ==> graph.sources[f].calls == {} && !graph.sources[f].hasPtrCall
      ensures g == graph && parents == [] && Fresh()
    {
      g := graph;
      wcs := map f | f in manual :: Bounded(graph.sources[f].localStack);
      unresolved := graph.missing;
      parents := [];
      rank, clock := map f | f in manual :: 0, 1;
      new;
      InitialMemo(g, M(), manual);
    }

    /** Nothing is being worked on. */
    ghost predicate Fresh()
      reads this
    {
      parents == [] && MemoOk(g, M(), []) && Ranked(M(), clock)
    }

    /** `calc_all_wcs`, in any order: the results are those of the call graph. */
    method CalcAllWcs()
      requires Fresh()
      modifies this
      ensures Fresh()
      ensures forall f :: f in g.sources ==> f in wcs && f in unresolved
      ensures forall f :: f in g.sources && f in wcs ==>
        && (wcs[f].Unbounded? <==> HasNoBound(g, f))
        && (wcs[f].Bounded? ==> IsDeepest(g, f, wcs[f].depth))
      ensures forall f, c :: f in g.sources && f in wcs && f in unresolved && wcs[f].Bounded? ==>
        (c in unresolved[f] <==> ReachesMissing(g, f, c))
    {
      hide HasNoBound, IsDeepest, ReachesMissing;
      var rest := g.sources.Keys;
      while rest != {}
        invariant Fresh() && rest <= g.sources.Keys
        invariant forall f :: f in g.sources && f !in rest ==> f in wcs
      {
        var f :| f in rest;
        SinglePath(g, f);
        assert [] + [f] == [f];
        CalcWcs(f);
        rest := rest - {f};
      }
      GraphFacts(g, M(), []);
      forall f | f in g.sources
        ensures wcs[f].Unbounded? <==> HasNoBound(g, f)
        ensures wcs[f].Bounded? ==> IsDeepest(g, f, wcs[f].depth)
        ensures wcs[f].Bounded? ==> forall c :: c in unresolved[f] <==> ReachesMissing(g, f, c)
      {
        MemoIsCorrect(g, M(), f);
      }
    }
  }

  lemma EmptyOrMember(hs: seq<Fxn>)
    ensures hs == [] || exists h :: h in hs
  {
    if hs != [] {
      assert hs[0] in hs;
    }
  }

  lemma InitialMemo(g: Graph, m: Memo, manual: set<Fxn>)
    requires ValidGraph(g) && manual <= g.sources.Keys
    requires forall f :: f in manual ==> g.sources[f].calls == {} && !g.sources[f].hasPtrCall
    requires m == Memo(map f | f in manual :: Bounded(g.sources[f].localStack), g.missing, map f | f in manual :: 0)
    ensures MemoOk(g, m, []) && Ranked(m, 1)
  {
    forall f | f in g.sources && IsBounded(m, f)
      ensures BoundedOk(g, m, f)
    {
      assert Resolved(g, f);
      assert forall h :: h !in g.succ[f];
      EmptyOrMember(g.succ[f]);
    }
  }

  lemma HasResult(g: Graph, m: Memo, m': Memo, ps: seq<Fxn>, f: Fxn, clock: nat)
    requires Calculated(g, m, m', ps, f, clock)
    ensures f in m'.wcs
  {
  }
}
