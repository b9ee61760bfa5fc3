/**
 The page allocator under the slab allocator (`src/slab.c`): a list of runs of free pages, by address.
 Pages are counted from the start of the heap.
 */
module SlabPages {
  import opened Wrappers

  datatype Run = Run(start: nat, count: nat)

  /** The runs are not empty, by address, and with a page in use between any two: none can be merged. */
  ghost predicate Canonical(runs: seq<Run>) {
    && (forall i :: 0 <= i < |runs| ==> runs[i].count > 0)
    && (forall i, j :: 0 <= i < j < |runs| ==> runs[i].start + runs[i].count < runs[j].start)
  }

  ghost predicate InRun(r: Run, p: nat) {
    r.start <= p < r.start + r.count
  }

  /** Page `p` is free. */
  ghost predicate Free(runs: seq<Run>, p: nat) {
    exists i :: 0 <= i < |runs| && InRun(runs[i], p)
  }

  ghost predicate InSpan(start: nat, count: nat, p: nat) {
    start <= p < start + count
  }

  function Total(runs: seq<Run>): nat {
    if runs == [] then 0 else runs[0].count + Total(runs[1..])
  }

  lemma {:induction false} TotalAppend(a: seq<Run>, b: seq<Run>)
    ensures Total(a + b) == Total(a) + Total(b)
  {
    if a == [] {
      assert a + b == b;
    } else {
      assert (a + b)[1..] == a[1..] + b && (a + b)[0] == a[0];
      TotalAppend(a[1..], b);
    }
  }

  lemma TotalOne(r: Run)
    ensures Total([r]) == r.count
  {
    assert [r][1..] == [];
  }

  /** Runs `i` to `j - 1` replaced by `mid`. */
  function Replace(runs: seq<Run>, i: nat, j: nat, mid: seq<Run>): seq<Run>
    requires i <= j <= |runs|
  {
    runs[..i] + mid + runs[j..]
  }

  lemma ReplaceTotal(runs: seq<Run>, i: nat, j: nat, mid: seq<Run>)
    requires i <= j <= |runs|
    ensures Total(Replace(runs, i, j, mid)) == Total(runs) - Total(runs[i..j]) + Total(mid)
  {
    assert runs == runs[..i] + runs[i..j] + runs[j..];
    TotalAppend(runs[..i] + runs[i..j], runs[j..]);
    TotalAppend(runs[..i], runs[i..j]);
    TotalAppend(runs[..i] + mid, runs[j..]);
    TotalAppend(runs[..i], mid);
  }

  /** The new list is canonical if its middle is, and keeps its distance from both sides. */
  lemma ReplaceCanonical(runs: seq<Run>, i: nat, j: nat, mid: seq<Run>)
    requires Canonical(runs) && i <= j <= |runs| && Canonical(mid)
    requires forall m :: 0 <= m < |mid| ==>
      && (i > 0 ==> runs[i - 1].start + runs[i - 1].count < mid[m].start)
      && (j < |runs| ==> mid[m].start + mid[m].count < runs[j].start)
    requires i > 0 && j < |runs| ==> runs[i - 1].start + runs[i - 1].count < runs[j].start
    ensures Canonical(Replace(runs, i, j, mid))
  {
    hide Free;
    var r := Replace(runs, i, j, mid);
    forall a, b | 0 <= a < b < |r|
      ensures r[a].start + r[a].count < r[b].start
    {
      var m := i + |mid|;
      if a < i {
        assert r[a] == runs[a];
        if b < i {
          assert r[b] == runs[b];
        } else if b < m {
          assert r[b] == mid[b - i];
          assert a < i - 1 ==> runs[a].start + runs[a].count < runs[i - 1].start;
        } else {
          assert r[b] == runs[b - m + j];
        }
      } else if a < m {
        assert r[a] == mid[a - i];
        if b < m {
          assert r[b] == mid[b - i];
        } else {
          assert r[b] == runs[b - m + j];
          assert b - m + j > j ==> runs[j].start + runs[j].count < runs[b - m + j].start;
        }
      } else {
        assert r[a] == runs[a - m + j] && r[b] == runs[b - m + j];
      }
    }
    forall a | 0 <= a < |r|
      ensures r[a].count > 0
    {
      assert r[a] == if a < i then runs[a] else if a < i + |mid| then mid[a - i] else runs[a - i - |mid| + j];
    }
  }

  lemma ReplaceFree(runs: seq<Run>, i: nat, j: nat, mid: seq<Run>, p: nat)
    requires i <= j <= |runs|
    ensures Free(Replace(runs, i, j, mid), p) <==> Free(runs[..i], p) || Free(mid, p) || Free(runs[j..], p)
  {
    var r := Replace(runs, i, j, mid);
    FreeAppend(runs[..i] + mid, runs[j..], p);
    FreeAppend(runs[..i], mid, p);
  }

  lemma FreeAppend(a: seq<Run>, b: seq<Run>, p: nat)
    ensures Free(a + b, p) <==> Free(a, p) || Free(b, p)
  {
    if Free(a, p) {
      var i :| 0 <= i < |a| && InRun(a[i], p);
      assert InRun((a + b)[i], p);
    }
    if Free(b, p) {
      var i :| 0 <= i < |b| && InRun(b[i], p);
      assert InRun((a + b)[|a| + i], p);
    }
    if Free(a + b, p) {
      var i :| 0 <= i < |a + b| && InRun((a + b)[i], p);
      assert if i < |a| then InRun(a[i], p) else InRun(b[i - |a|], p);
    }
  }

  lemma FreeSplit(runs: seq<Run>, i: nat, j: nat, p: nat)
    requires i <= j <= |runs|
    ensures Free(runs, p) <==> Free(runs[..i], p) || Free(runs[i..j], p) || Free(runs[j..], p)
  {
    assert runs == runs[..i] + runs[i..j] + runs[j..];
    FreeAppend(runs[..i] + runs[i..j], runs[j..], p);
    FreeAppend(runs[..i], runs[i..j], p);
  }

  lemma FreeOne(r: Run, p: nat)
    ensures Free([r], p) <==> InRun(r, p)
  {
    assert InRun([r][0], p) == InRun(r, p);
  }

  lemma FreeTwo(a: Run, b: Run, p: nat)
    ensures Free([a, b], p) <==> InRun(a, p) || InRun(b, p)
  {
    assert [a, b] == [a] + [b];
    FreeAppend([a], [b], p);
    FreeOne(a, p);
    FreeOne(b, p);
  }

  /** The free pages determine the list. */
  lemma {:induction false} RunsUnique(a: seq<Run>, b: seq<Run>)
    requires Canonical(a) && Canonical(b) && forall p: nat :: Free(a, p) <==> Free(b, p)
    ensures a == b
  {
    if a == [] || b == [] {
      if a != [] { assert InRun(a[0], a[0].start); assert Free(a, a[0].start); }
      if b != [] { assert InRun(b[0], b[0].start); assert Free(b, b[0].start); }
    } else {
      FirstRun(a, b);
      FirstRun(b, a);
      forall p: nat
        ensures Free(a[1..], p) <==> Free(b[1..], p)
      {
        RestFree(a, p);
        RestFree(b, p);
        assert Free(a, p) <==> Free(b, p);
      }
      RunsUnique(a[1..], b[1..]);
    }
  }

  lemma RestFree(a: seq<Run>, p: nat)
    requires Canonical(a) && a != []
    ensures Free(a[1..], p) <==> Free(a, p) && !InRun(a[0], p)
  {
    assert a == [a[0]] + a[1..];
    FreeAppend([a[0]], a[1..], p);
    FreeOne(a[0], p);
    if Free(a[1..], p) {
      var i :| 0 <= i < |a[1..]| && InRun(a[1..][i], p);
      assert a[0].start + a[0].count < a[i + 1].start;
    }
  }

  /** The first run of one list begins no later and ends no later than that of another with the same pages. */
  lemma FirstRun(a: seq<Run>, b: seq<Run>)
    requires Canonical(a) && Canonical(b) && a != [] && b != [] && forall p: nat :: Free(a, p) <==> Free(b, p)
    ensures b[0].start <= a[0].start && a[0].start + a[0].count <= b[0].start + b[0].count
  {
    assert InRun(a[0], a[0].start);
    assert Free(a, a[0].start);
    StartsFirst(b, a[0].start);
    var e := b[0].start + b[0].count;
    if e < a[0].start + a[0].count {
      assert InRun(b[0], b[0].start);
      assert Free(b, b[0].start);
      StartsFirst(a, b[0].start);
      assert InRun(a[0], e);
      assert Free(a, e);
      EndNotFree(b);
      assert false;
    }
  }

  lemma StartsFirst(b: seq<Run>, p: nat)
    requires Canonical(b) && b != [] && Free(b, p)
    ensures b[0].start <= p
  {
    var i :| 0 <= i < |b| && InRun(b[i], p);
    assert i > 0 ==> b[0].start + b[0].count < b[i].start;
  }

  lemma EndNotFree(b: seq<Run>)
    requires Canonical(b) && b != []
    ensures !Free(b, b[0].start + b[0].count)
  {
    var e := b[0].start + b[0].count;
    forall i | 0 <= i < |b|
      ensures !InRun(b[i], e)
    {
      assert i > 0 ==> e < b[i].start;
    }
  }

  // ----- what the operations do to the list

  /** Taking `count` pages off the front of run `i`. */
  function Took(runs: seq<Run>, i: nat, count: nat): seq<Run>
    requires i < |runs|
  {
    var b := runs[i];
    Replace(runs, i, i + 1, if b.count > count then [Run(b.start + count, b.count - count)] else [])
  }

  lemma TookFree(runs: seq<Run>, i: nat, count: nat, p: nat)
    requires Canonical(runs) && i < |runs| && 0 < count <= runs[i].count
    ensures Free(Took(runs, i, count), p) <==> Free(runs, p) && !InSpan(runs[i].start, count, p)
    ensures InSpan(runs[i].start, count, p) ==> Free(runs, p)
  {
    var b := runs[i];
    var mid := if b.count > count then [Run(b.start + count, b.count - count)] else [];
    assert runs[i..i + 1] == [b];
    FreeSplit(runs, i, i + 1, p);
    ReplaceFree(runs, i, i + 1, mid, p);
    FreeOne(b, p);
    if b.count > count { FreeOne(mid[0], p); }
    if InRun(b, p) { OthersApart(runs, i, p); }
    hide Canonical, Free;
  }

  lemma TookKeeps(runs: seq<Run>, i: nat, count: nat)
    requires Canonical(runs) && i < |runs| && 0 < count <= runs[i].count
    ensures Canonical(Took(runs, i, count)) && Total(Took(runs, i, count)) == Total(runs) - count
  {
    var b := runs[i];
    if b.count > count {
      hide Canonical, Total;
      FrontTaken(runs, i, count);
    } else {
      hide Total;
      RunGone(runs, i);
    }
  }

  lemma FrontTaken(runs: seq<Run>, i: nat, count: nat)
    requires Canonical(runs) && i < |runs| && 0 < count < runs[i].count
    ensures var r := Replace(runs, i, i + 1, [Run(runs[i].start + count, runs[i].count - count)]);
      Canonical(r) && Total(r) == Total(runs) - count
  {
    hide Total, Replace;
    var b := runs[i];
    assert i > 0 ==> runs[i - 1].start + runs[i - 1].count < b.start;
    assert i + 1 < |runs| ==> b.start + b.count < runs[i + 1].start;
    GaveOneKeeps(runs, i, Run(b.start + count, b.count - count));
  }

  lemma RunGone(runs: seq<Run>, i: nat)
    requires Canonical(runs) && i < |runs|
    ensures Canonical(Replace(runs, i, i + 1, [])) && Total(Replace(runs, i, i + 1, [])) == Total(runs) - runs[i].count
  {
    assert runs[i..i + 1] == [runs[i]];
    assert i > 0 && i + 1 < |runs| ==> runs[i - 1].start + runs[i - 1].count < runs[i + 1].start;
    ReplaceCanonical(runs, i, i + 1, []);
    ReplaceTotal(runs, i, i + 1, []);
    TotalOne(runs[i]);
    assert Total([]) == 0;
  }

  lemma OthersApart(runs: seq<Run>, i: nat, p: nat)
    requires Canonical(runs) && i < |runs| && InRun(runs[i], p)
    ensures !Free(runs[..i], p) && !Free(runs[i + 1..], p)
  {
    var lo, hi := runs[..i], runs[i + 1..];
    forall k | 0 <= k < |lo|
      ensures !InRun(lo[k], p)
    {
      assert runs[k].start + runs[k].count < runs[i].start;
    }
    forall k | 0 <= k < |hi|
      ensures !InRun(hi[k], p)
    {
      assert runs[i].start + runs[i].count < runs[i + 1 + k].start;
    }
  }

  /** The span is not free and can be joined to what is around place `i` of the list. */
  ghost predicate Fits(runs: seq<Run>, i: nat, start: nat, count: nat) {
    && i <= |runs| && count > 0
    && (i > 0 ==> runs[i - 1].start + runs[i - 1].count < start)
    && forall p: nat :: InSpan(start, count, p) ==> !Free(runs, p)
  }

  /** A run that does not end before a span that is not free begins after it. */
  lemma NotBefore(runs: seq<Run>, i: nat, start: nat, count: nat)
    requires Canonical(runs) && i < |runs| && count > 0 && forall p: nat :: InSpan(start, count, p) ==> !Free(runs, p)
    ensures runs[i].start + runs[i].count <= start || start + count <= runs[i].start
  {
    var b := runs[i];
    if b.start + b.count > start && start + count > b.start {
      var p := if b.start < start then start else b.start;
      assert InRun(b, p) && InSpan(start, count, p);
      assert Free(runs, p);
      assert false;
    }
  }

  /** What a free of a span makes of the list around place `i`. */
  ghost predicate Gave(runs: seq<Run>, i: nat, start: nat, count: nat, runs': seq<Run>) {
    && i <= |runs|
    && if i < |runs| && runs[i].start + runs[i].count == start then
         if i + 1 < |runs| && start + count == runs[i + 1].start
         then runs' == Replace(runs, i, i + 2, [Run(runs[i].start, runs[i].count + count + runs[i + 1].count)])
         else runs' == Replace(runs, i, i + 1, [Run(runs[i].start, runs[i].count + count)])
       else if i < |runs| && start + count == runs[i].start
       then runs' == Replace(runs, i, i + 1, [Run(start, runs[i].count + count)])
       else runs' == Replace(runs, i, i, [Run(start, count)])
  }

  /** The pages between the places of the change, before and after. */
  lemma GaveFree(runs: seq<Run>, i: nat, start: nat, count: nat, runs': seq<Run>, p: nat)
    requires Canonical(runs) && Fits(runs, i, start, count) && Gave(runs, i, start, count, runs')
    ensures Free(runs', p) <==> Free(runs, p) || InSpan(start, count, p)
  {
    if i < |runs| && runs[i].start + runs[i].count == start {
      if i + 1 < |runs| && start + count == runs[i + 1].start {
        var r := Run(runs[i].start, runs[i].count + count + runs[i + 1].count);
        assert runs[i..i + 2] == [runs[i], runs[i + 1]];
        ReplaceFree(runs, i, i + 2, [r], p);
        FreeSplit(runs, i, i + 2, p);
        FreeTwo(runs[i], runs[i + 1], p);
        FreeOne(r, p);
      } else {
        var r := Run(runs[i].start, runs[i].count + count);
        GaveOne(runs, i, r, p);
      }
    } else if i < |runs| && start + count == runs[i].start {
      GaveOne(runs, i, Run(start, runs[i].count + count), p);
    } else {
      ReplaceFree(runs, i, i, [Run(start, count)], p);
      FreeSplit(runs, i, i, p);
      FreeOne(Run(start, count), p);
      assert runs[i..i] == [] && !Free([], p);
    }
    hide Canonical, Free, Fits;
  }

  lemma GaveOne(runs: seq<Run>, i: nat, r: Run, p: nat)
    requires i < |runs|
    ensures Free(Replace(runs, i, i + 1, [r]), p) <==> Free(runs[..i], p) || InRun(r, p) || Free(runs[i + 1..], p)
    ensures Free(runs, p) <==> Free(runs[..i], p) || InRun(runs[i], p) || Free(runs[i + 1..], p)
  {
    assert runs[i..i + 1] == [runs[i]];
    ReplaceFree(runs, i, i + 1, [r], p);
    FreeSplit(runs, i, i + 1, p);
    FreeOne(runs[i], p);
    FreeOne(r, p);
  }

  lemma GaveKeeps(runs: seq<Run>, i: nat, start: nat, count: nat, runs': seq<Run>)
    requires Canonical(runs) && Fits(runs, i, start, count) && Gave(runs, i, start, count, runs')
    requires i < |runs| && runs[i].start + runs[i].count != start ==> start + count <= runs[i].start
    ensures Canonical(runs') && Total(runs') == Total(runs) + count
  {
    if i < |runs| && runs[i].start + runs[i].count == start {
      if i + 1 < |runs| { NotBefore(runs, i + 1, start, count); assert runs[i].start + runs[i].count < runs[i + 1].start; }
      if i + 1 < |runs| && start + count == runs[i + 1].start {
        var r := Run(runs[i].start, runs[i].count + count + runs[i + 1].count);
        assert runs[i..i + 2] == [runs[i]] + [runs[i + 1]];
        ReplaceCanonical(runs, i, i + 2, [r]);
        ReplaceTotal(runs, i, i + 2, [r]);
        TotalAppend([runs[i]], [runs[i + 1]]);
        TotalOne(runs[i]);
        TotalOne(runs[i + 1]);
        TotalOne(r);
      } else {
        GaveOneKeeps(runs, i, Run(runs[i].start, runs[i].count + count));
      }
    } else if i < |runs| && start + count == runs[i].start {
      GaveOneKeeps(runs, i, Run(start, runs[i].count + count));
    } else {
      ReplaceCanonical(runs, i, i, [Run(start, count)]);
      ReplaceTotal(runs, i, i, [Run(start, count)]);
      assert runs[i..i] == [];
      TotalOne(Run(start, count));
    }
  }

  lemma GaveOneKeeps(runs: seq<Run>, i: nat, r: Run)
    requires Canonical(runs) && i < |runs| && r.count > 0
    requires i > 0 ==> runs[i - 1].start + runs[i - 1].count < r.start
    requires i + 1 < |runs| ==> r.start + r.count < runs[i + 1].start
    ensures Canonical(Replace(runs, i, i + 1, [r])) && Total(Replace(runs, i, i + 1, [r])) == Total(runs) - runs[i].count + r.count
  {
    assert runs[i..i + 1] == [runs[i]];
    ReplaceCanonical(runs, i, i + 1, [r]);
    ReplaceTotal(runs, i, i + 1, [r]);
    TotalOne(runs[i]);
    TotalOne(r);
  }

  class Pages {
    var runs: seq<Run>

    ghost predicate Valid()
      reads this
    {
      Canonical(runs)
    }

    /** `rt_slab_page_init`. */
    constructor (npages: nat)
      requires npages > 0
      ensures Valid() && Total(runs) == npages && forall p: nat :: Free(runs, p) <==> p < npages
    {
      runs := [Run(0, npages)];
      new;
      TotalOne(Run(0, npages));
      forall p: nat
        ensures Free(runs, p) <==> p < npages
      {
        FreeOne(Run(0, npages), p);
      }
    }

    /** `rt_slab_page_alloc`: the first run that is long enough. */
    method Alloc(npages: nat) returns (start: Option<nat>)
      requires Valid()
      modifies this
      ensures Valid()
      ensures start.Some? <==> npages > 0 && exists i :: 0 <= i < |old(runs)| && old(runs)[i].count >= npages
      ensures start.None? ==> runs == old(runs)
      ensures start.Some? ==> Total(runs) == Total(old(runs)) - npages
      ensures start.Some? ==> forall p: nat :: Free(runs, p) <==> Free(old(runs), p) && !InSpan(start.value, npages, p)
      ensures start.Some? ==> forall p: nat :: InSpan(start.value, npages, p) ==> Free(old(runs), p)
      ensures start.Some? ==> forall i :: 0 <= i < |old(runs)| && old(runs)[i].count >= npages ==> start.value <= old(runs)[i].start
    {
      if npages == 0 {
        return None;
      }
      ghost var had := runs;
      var i := 0;
      while i < |runs|
        invariant i <= |runs| && runs == had
        invariant forall k :: 0 <= k < i ==> had[k].count < npages
      {
        var b := runs[i];
        if b.count >= npages {
          TookKeeps(runs, i, npages);
          forall p: nat
            ensures Free(Took(had, i, npages), p) <==> Free(had, p) && !InSpan(b.start, npages, p)
            ensures InSpan(b.start, npages, p) ==> Free(had, p)
          {
            TookFree(had, i, npages, p);
          }
          hide Free, Total;
          if b.count > npages {
            runs := runs[..i] + [Run(b.start + npages, b.count - npages)] + runs[i + 1..];
          } else {
            runs := runs[..i] + runs[i + 1..];
          }
          assert runs == Took(had, i, npages);
          return Some(b.start);
        }
        i := i + 1;
      }
      start := None;
    }

    /** `rt_slab_page_free`: the span joins the runs before and behind it, if it touches them. */
    method Give(start: nat, npages: nat)
      requires Valid() && npages > 0 && forall p: nat :: InSpan(start, npages, p) ==> !Free(runs, p)
      modifies this
      ensures Valid() && Total(runs) == Total(old(runs)) + npages
      ensures forall p: nat :: Free(runs, p) <==> Free(old(runs), p) || InSpan(start, npages, p)
    {
      ghost var had := runs;
      var i := Place(start, npages);
      hide Gave, Fits, Free, Canonical, Total;
      Join(i, start, npages);
      GaveKeeps(had, i, start, npages, runs);
      forall p: nat
        ensures Free(runs, p) <==> Free(had, p) || InSpan(start, npages, p)
      {
        GaveFree(had, i, start, npages, runs, p);
      }
    }

    method Join(i: nat, start: nat, npages: nat)
      requires i <= |runs|
      modifies this
      ensures Gave(old(runs), i, start, npages, runs)
    {
      if i < |runs| && runs[i].start + runs[i].count == start {
        var b := runs[i];
        if i + 1 < |runs| && b.start + b.count + npages == runs[i + 1].start {
          runs := runs[..i] + [Run(b.start, b.count + npages + runs[i + 1].count)] + runs[i + 2..];
        } else {
          runs := runs[..i] + [Run(b.start, b.count + npages)] + runs[i + 1..];
        }
      } else if i < |runs| && runs[i].start == start + npages {
        runs := runs[..i] + [Run(start, runs[i].count + npages)] + runs[i + 1..];
      } else {
        runs := runs[..i] + [Run(start, npages)] + runs[i..];
      }
    }

    /** The loop of `rt_slab_page_free`: to the first run that does not end before the span. */
    method Place(start: nat, npages: nat) returns (i: nat)
      requires Valid() && npages > 0 && forall p: nat :: InSpan(start, npages, p) ==> !Free(runs, p)
      ensures Fits(runs, i, start, npages)
      ensures i < |runs| ==> runs[i].start + runs[i].count == start || start + npages <= runs[i].start
    {
      i := 0;
      while i < |runs|
        invariant i <= |runs| && (i > 0 ==> runs[i - 1].start + runs[i - 1].count < start)
      {
        NotBefore(runs, i, start, npages);
        var b := runs[i];
        if b.start + b.count == start || b.start == start + npages || b.start > start + npages {
          return;
        }
        i := i + 1;
      }
    }
  }
}
