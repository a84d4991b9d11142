/**
 * `GraphObj::topo_sort` as functions on the state value: repeated sweeps over the operator list,
 * each taking, in list order, every operator not yet taken whose inputs all have no source or a
 * source already taken; the sort fails when a sweep takes nothing.
 */
module Topo {
  import opened Common
  import opened Net

  /** `o` is not taken yet and every input's source is absent or already taken. */
  function Ready(n: Net, o: OpId, taken: seq<OpId>): bool
    requires Closed(n) && o in n.opAt
  {
    && o !in taken
    && forall t :: t in n.opAt[o].inputs ==>
         n.tensorAt[t].source.None? || n.tensorAt[t].source.value in taken
  }

  /** One sweep over the first `k` listed operators, appending each that is ready when reached. */
  function Sweep(n: Net, k: nat, taken: seq<OpId>): (r: seq<OpId>)
    requires Closed(n) && k <= |n.ops|
    ensures taken <= r
  {
    if k == 0 then taken
    else
      var a := Sweep(n, k - 1, taken);
      if Ready(n, n.ops[k - 1], a) then a + [n.ops[k - 1]] else a
  }

  /** Sweeps until every listed operator is taken, or a sweep takes nothing. */
  function SortFrom(n: Net, taken: seq<OpId>): Option<seq<OpId>>
    requires Closed(n)
    decreases |n.ops| - |taken|
  {
    if |taken| >= |n.ops| then Some(taken)
    else
      var a := Sweep(n, |n.ops|, taken);
      if |a| == |taken| then None else SortFrom(n, a)
  }

  /**
   * `topo_sort`: a sorted graph is left alone; otherwise on success the list is replaced by the
   * sweep order and the graph is marked sorted, and on failure nothing changes.
   */
  function TopoSort(n: Net): (r: (bool, Net))
    requires Closed(n)
    ensures n.sorted ==> r == (true, n)
    ensures !r.0 ==> r.1 == n
    ensures r.0 ==> r.1.sorted && r.1.tensorAt == n.tensorAt && r.1.opAt == n.opAt && r.1.tensors == n.tensors
  {
    if n.sorted then (true, n)
    else
      match SortFrom(n, [])
      case None => (false, n)
      case Some(order) => (true, n.(ops := order, sorted := true))
  }

  // ---------------------------------------------------------------------------------------
  // What the order satisfies

  /** Every operator of `order` comes after the source of each of its inputs. */
  ghost predicate InputsFirst(n: Net, order: seq<OpId>)
    requires Closed(n)
  {
    forall i, t ::
      (0 <= i < |order| && order[i] in n.opAt && t in n.opAt[order[i]].inputs && n.tensorAt[t].source.Some?)
      ==> n.tensorAt[t].source.value in order[..i]
  }

  /** A partial order: listed operators, none twice, each after its inputs' sources. */
  ghost predicate Partial(n: Net, order: seq<OpId>)
    requires Closed(n)
  {
    NoDups(order) && (forall o :: o in order ==> o in n.ops) && InputsFirst(n, order)
  }

  /** Appending a ready operator keeps a partial order. */
  lemma AppendReady(n: Net, a: seq<OpId>, o: OpId)
    requires Closed(n) && o in n.ops && Partial(n, a) && Ready(n, o, a)
    ensures Partial(n, a + [o])
  {
    var b := a + [o];
    assert b[..|a|] == a;
    forall i, t | 0 <= i < |b| && b[i] in n.opAt && t in n.opAt[b[i]].inputs && n.tensorAt[t].source.Some?
      ensures n.tensorAt[t].source.value in b[..i]
    {
      if i < |a| {
        assert b[..i] == a[..i];
      }
    }
  }

  lemma {:induction false} SweepPartial(n: Net, k: nat, taken: seq<OpId>)
    requires Closed(n) && k <= |n.ops| && Partial(n, taken)
    ensures Partial(n, Sweep(n, k, taken))
    decreases k
  {
    if k > 0 {
      SweepPartial(n, k - 1, taken);
      var a := Sweep(n, k - 1, taken);
      if Ready(n, n.ops[k - 1], a) {
        AppendReady(n, a, n.ops[k - 1]);
      }
    }
  }

  lemma {:induction false} SortFromPartial(n: Net, taken: seq<OpId>)
    requires Closed(n) && Partial(n, taken)
    ensures SortFrom(n, taken).Some? ==>
              Partial(n, SortFrom(n, taken).value) && |SortFrom(n, taken).value| >= |n.ops|
    decreases |n.ops| - |taken|
  {
    if |taken| < |n.ops| {
      SweepPartial(n, |n.ops|, taken);
      var a := Sweep(n, |n.ops|, taken);
      if |a| != |taken| {
        SortFromPartial(n, a);
      }
    }
  }

  /**
   * A successful sort of an unsorted graph lists exactly the operators it listed before, each
   * once, every one after the sources of its inputs; so the old list had no operator twice.
   */
  lemma TopoSortOrders(n: Net)
    requires Closed(n) && !n.sorted && TopoSort(n).0
    ensures var r := TopoSort(n).1;
            && multiset(r.ops) == multiset(n.ops) && NoDups(r.ops) && NoDups(n.ops)
            && InputsFirst(n, r.ops)
  {
    SortFromPartial(n, []);
    var order := SortFrom(n, []).value;
    NoDupsFits(order, n.ops);
    forall y ensures multiset(n.ops)[y] <= 1 {
      MultisetOfNoDups(order, y);
    }
    CountsMeanNoDups(n.ops);
  }

  /** A list already in input order, with no operator twice, is swept whole in one pass. */
  lemma {:induction false} SweepOrdered(n: Net, k: nat)
    requires Closed(n) && k <= |n.ops| && NoDups(n.ops) && InputsFirst(n, n.ops)
    ensures Sweep(n, k, []) == n.ops[..k]
    decreases k
  {
    if k > 0 {
      SweepOrdered(n, k - 1);
      var o := n.ops[k - 1];
      var before := n.ops[..k - 1];
      forall j | 0 <= j < |before| ensures before[j] != o {
        assert before[j] == n.ops[j];
      }
      assert n.ops[..k - 1] + [o] == n.ops[..k];
    }
  }

  /** Sorting a graph whose list is already in input order keeps the list and marks it sorted. */
  lemma SortKeepsOrderedList(n: Net)
    requires Closed(n) && NoDups(n.ops) && InputsFirst(n, n.ops)
    ensures TopoSort(n) == (true, n.(sorted := true))
  {
    SweepOrdered(n, |n.ops|);
    assert n.ops[..|n.ops|] == n.ops;
    if n.ops != [] {
      assert SortFrom(n, n.ops) == Some(n.ops);
    }
  }

  // ---------------------------------------------------------------------------------------
  // When the sort succeeds

  /** A duplicate-free list of listed operators shorter than the list misses one of them. */
  lemma Untaken(ops: seq<OpId>, taken: seq<OpId>) returns (o: OpId)
    requires NoDups(ops) && NoDups(taken) && (forall x :: x in taken ==> x in ops) && |taken| < |ops|
    ensures o in ops && o !in taken
  {
    if forall x :: x in ops ==> x in taken {
      NoDupsFits(ops, taken);
      assert false;
    }
    o :| o in ops && o !in taken;
  }

  /** The first position of `p`, from `lo` on, holding an operator not yet taken. */
  lemma {:induction false} FirstUntaken(p: seq<OpId>, taken: seq<OpId>, lo: nat) returns (j: nat)
    requires lo <= |p| && (forall i :: 0 <= i < lo ==> p[i] in taken)
    requires exists i :: lo <= i < |p| && p[i] !in taken
    ensures lo <= j < |p| && p[j] !in taken && forall i :: 0 <= i < j ==> p[i] in taken
    decreases |p| - lo
  {
    if p[lo] !in taken {
      j := lo;
    } else {
      j := FirstUntaken(p, taken, lo + 1);
    }
  }

  /** A sweep takes every operator it reaches whose input sources were all taken before it began. */
  lemma {:induction false} SweepTakes(n: Net, k: nat, taken: seq<OpId>, q: OpId)
    requires Closed(n) && k <= |n.ops| && q in n.ops[..k] && q in n.opAt
    requires forall t :: t in n.opAt[q].inputs && n.tensorAt[t].source.Some? ==> n.tensorAt[t].source.value in taken
    ensures q in Sweep(n, k, taken)
    decreases k
  {
    var a := Sweep(n, k - 1, taken);
    var r := Sweep(n, k, taken);
    assert n.ops[..k] == n.ops[..k - 1] + [n.ops[k - 1]];
    if q != n.ops[k - 1] {
      SweepTakes(n, k - 1, taken, q);
      var i :| 0 <= i < |a| && a[i] == q;
      assert r[i] == q;
    } else if q in a {
      var i :| 0 <= i < |a| && a[i] == q;
      assert r[i] == q;
    } else {
      forall t | t in n.opAt[q].inputs && n.tensorAt[t].source.Some?
        ensures n.tensorAt[t].source.value in a
      {
        var i :| 0 <= i < |taken| && taken[i] == n.tensorAt[t].source.value;
        assert a[i] == taken[i];
      }
      assert Ready(n, q, a);
    }
  }

  /**
   * When some rearrangement `p` of the list puts every operator after its inputs' sources, each
   * sweep takes at least the first operator of `p` not yet taken, so the sweeps finish.
   */
  lemma {:induction false} SortFromComplete(n: Net, taken: seq<OpId>, p: seq<OpId>)
    requires Closed(n) && NoDups(n.ops) && Partial(n, taken)
    requires multiset(p) == multiset(n.ops) && InputsFirst(n, p)
    ensures SortFrom(n, taken).Some?
    decreases |n.ops| - |taken|
  {
    if |taken| < |n.ops| {
      var o := Untaken(n.ops, taken);
      assert o in multiset(p);
      var i0 :| 0 <= i0 < |p| && p[i0] == o;
      var j := FirstUntaken(p, taken, 0);
      var q := p[j];
      assert q in multiset(n.ops);
      forall t | t in n.opAt[q].inputs && n.tensorAt[t].source.Some?
        ensures n.tensorAt[t].source.value in taken
      {
        var x :| x in p[..j] && x == n.tensorAt[t].source.value;
        var i :| 0 <= i < j && p[i] == x;
      }
      assert n.ops[..|n.ops|] == n.ops;
      SweepTakes(n, |n.ops|, taken, q);
      var a := Sweep(n, |n.ops|, taken);
      SweepPartial(n, |n.ops|, taken);
      SortFromComplete(n, a, p);
    }
  }

  /**
   * `topo_sort` reports failure only for a cycle or a dangling dependency: it succeeds exactly
   * when the list has no operator twice and some rearrangement of it puts every operator after
   * the sources of its inputs.
   */
  lemma TopoSortSucceedsIff(n: Net)
    requires Closed(n) && !n.sorted
    ensures TopoSort(n).0 <==>
              NoDups(n.ops) && exists p: seq<OpId> :: multiset(p) == multiset(n.ops) && InputsFirst(n, p)
  {
    if TopoSort(n).0 {
      TopoSortOrders(n);
      var r := TopoSort(n).1;
      assert multiset(r.ops) == multiset(n.ops) && InputsFirst(n, r.ops);
    }
    if NoDups(n.ops) && exists p: seq<OpId> :: multiset(p) == multiset(n.ops) && InputsFirst(n, p) {
      var p: seq<OpId> :| multiset(p) == multiset(n.ops) && InputsFirst(n, p);
      SortFromComplete(n, [], p);
    }
  }

  /** Sorting twice is sorting once. */
  lemma SortIdempotent(n: Net)
    requires Closed(n) && TopoSort(n).0
    ensures Closed(TopoSort(n).1) && TopoSort(TopoSort(n).1) == TopoSort(n)
  {
    if !n.sorted {
      TopoSortOrders(n);
      var r := TopoSort(n).1;
      forall o | o in r.ops ensures o in r.opAt {
        assert o in multiset(n.ops);
      }
    }
  }
}
