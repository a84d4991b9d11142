/**
 * The record edits the rewrite rules of `GraphObj::optimize` are made of: the tensor and operator
 * helpers (`removeTarget`, `setSource(nullptr)`, `addPredecessors` / `removePredecessors`,
 * `addSuccessors` / `removeSuccessors`, writes to an operator's `inputs`, the MatMul transpose
 * flags) and the graph's `removeTensor` / `removeOperator`, which drop the first occurrence of an
 * ID from the graph's list and leave the record where it is.
 */
module Edits {
  import opened Common
  import opened Net
  import opened Wiring

  /** `t->removeTarget(o)`: every occurrence of `o` leaves the targets. */
  function RemoveTarget(n: Net, t: TensorId, o: OpId): (r: Net)
    requires t in n.tensorAt
    ensures r.opAt == n.opAt && SameSources(n, r)
  {
    var x := n.tensorAt[t];
    n.(tensorAt := n.tensorAt[t := x.(targets := RemoveAll(x.targets, o))])
  }

  /** `t->setSource(nullptr)`. */
  function ClearSource(n: Net, t: TensorId): (r: Net)
    requires t in n.tensorAt
    ensures r.opAt == n.opAt && SameTargets(n, r)
  {
    var x := n.tensorAt[t];
    n.(tensorAt := n.tensorAt[t := x.(source := None)])
  }

  /** `a->addPredecessors(p)`. */
  function AddPred(n: Net, a: OpId, p: OpId): (r: Net)
    requires a in n.opAt
    ensures r.tensorAt == n.tensorAt && r.opAt.Keys == n.opAt.Keys
  {
    var x := n.opAt[a];
    n.(opAt := n.opAt[a := x.(preds := x.preds + {p})])
  }

  /** `a->removePredecessors(p)`. */
  function RemovePred(n: Net, a: OpId, p: OpId): (r: Net)
    requires a in n.opAt
    ensures r.tensorAt == n.tensorAt && r.opAt.Keys == n.opAt.Keys
  {
    var x := n.opAt[a];
    n.(opAt := n.opAt[a := x.(preds := x.preds - {p})])
  }

  /** `a->addSuccessors(s)`. */
  function AddSucc(n: Net, a: OpId, s: OpId): (r: Net)
    requires a in n.opAt
    ensures r.tensorAt == n.tensorAt && r.opAt.Keys == n.opAt.Keys
  {
    var x := n.opAt[a];
    n.(opAt := n.opAt[a := x.(succs := x.succs + {s})])
  }

  /** `a->removeSuccessors(s)`. */
  function RemoveSucc(n: Net, a: OpId, s: OpId): (r: Net)
    requires a in n.opAt
    ensures r.tensorAt == n.tensorAt && r.opAt.Keys == n.opAt.Keys
  {
    var x := n.opAt[a];
    n.(opAt := n.opAt[a := x.(succs := x.succs - {s})])
  }

  /** Every input slot of `a` holding `from` now holds `to`. */
  function ReplaceInput(n: Net, a: OpId, from: TensorId, to: TensorId): (r: Net)
    requires a in n.opAt
    ensures r.tensorAt == n.tensorAt && r.opAt.Keys == n.opAt.Keys
  {
    var x := n.opAt[a];
    n.(opAt := n.opAt[a := x.(inputs := Replace(x.inputs, from, to))])
  }

  /** `a->inputs[k] = t`. */
  function SetInput(n: Net, a: OpId, k: nat, t: TensorId): (r: Net)
    requires a in n.opAt && k < |n.opAt[a].inputs|
    ensures r.tensorAt == n.tensorAt && r.opAt.Keys == n.opAt.Keys && r.opAt[a].kind == n.opAt[a].kind
  {
    var x := n.opAt[a];
    n.(opAt := n.opAt[a := x.(inputs := x.inputs[k := t])])
  }

  /** `setTransA(true)` for `k == 0`, `setTransB(true)` otherwise; the other flag is kept. */
  function SetTrans(n: Net, a: OpId, k: nat): (r: Net)
    requires a in n.opAt && n.opAt[a].kind.MatMul?
    ensures r.tensorAt == n.tensorAt && r.opAt.Keys == n.opAt.Keys
  {
    var x := n.opAt[a];
    var kind := if k == 0 then MatMul(true, x.kind.transB) else MatMul(x.kind.transA, true);
    n.(opAt := n.opAt[a := x.(kind := kind)])
  }

  /** `removeTensor(t)`. */
  function DropTensor(n: Net, t: TensorId): (r: Net)
    ensures r.tensorAt == n.tensorAt && r.opAt == n.opAt
  {
    n.(tensors := RemoveFirst(n.tensors, t))
  }

  /** `removeOperator(o)`. */
  function DropOp(n: Net, o: OpId): (r: Net)
    ensures r.tensorAt == n.tensorAt && r.opAt == n.opAt
  {
    n.(ops := RemoveFirst(n.ops, o))
  }

  // ---------------------------------------------------------------------------------------
  // Edits that keep the state closed

  lemma RemoveTargetKeepsClosed(n: Net, t: TensorId, o: OpId)
    requires Closed(n) && t in n.tensorAt
    ensures Closed(RemoveTarget(n, t, o))
  {
  }

  lemma ClearSourceKeepsClosed(n: Net, t: TensorId)
    requires Closed(n) && t in n.tensorAt
    ensures Closed(ClearSource(n, t))
  {
  }

  /** Edits that leave every list, tensor and operator's tensors alone keep the state closed. */
  ghost predicate SameRefs(n: Net, r: Net) {
    && r.tensors == n.tensors && r.ops == n.ops && r.tensorAt == n.tensorAt
    && r.opAt.Keys == n.opAt.Keys
    && forall a :: a in n.opAt ==> r.opAt[a].inputs == n.opAt[a].inputs && r.opAt[a].outputs == n.opAt[a].outputs
  }

  lemma SameRefsKeepClosed(n: Net, r: Net)
    requires Closed(n) && SameRefs(n, r)
    ensures Closed(r)
  {
    forall a | a in r.opAt ensures OpClosed(r, r.opAt[a]) {
      assert OpClosed(n, n.opAt[a]);
    }
  }

  /** Only neighbour caches differ: every list, tensor, and operator's kind and tensors stay. */
  ghost predicate OnlyNeighbours(n: Net, r: Net) {
    && r.tensors == n.tensors && r.ops == n.ops && r.sorted == n.sorted && r.tensorAt == n.tensorAt
    && r.opAt.Keys == n.opAt.Keys
    && forall a :: a in n.opAt ==>
         r.opAt[a].kind == n.opAt[a].kind && r.opAt[a].inputs == n.opAt[a].inputs
         && r.opAt[a].outputs == n.opAt[a].outputs
  }

  lemma OnlyNeighboursTrans(a: Net, b: Net, c: Net)
    requires OnlyNeighbours(a, b) && OnlyNeighbours(b, c)
    ensures OnlyNeighbours(a, c)
  {
  }

  lemma OnlyNeighboursKeepClosed(n: Net, r: Net)
    requires Closed(n) && OnlyNeighbours(n, r)
    ensures Closed(r)
  {
    SameRefsKeepClosed(n, r);
  }

  lemma AddPredOnlyNeighbours(n: Net, a: OpId, b: OpId)
    requires a in n.opAt
    ensures OnlyNeighbours(n, AddPred(n, a, b))
  {
  }

  lemma RemovePredOnlyNeighbours(n: Net, a: OpId, b: OpId)
    requires a in n.opAt
    ensures OnlyNeighbours(n, RemovePred(n, a, b))
  {
  }

  lemma AddSuccOnlyNeighbours(n: Net, a: OpId, b: OpId)
    requires a in n.opAt
    ensures OnlyNeighbours(n, AddSucc(n, a, b))
  {
  }

  lemma RemoveSuccOnlyNeighbours(n: Net, a: OpId, b: OpId)
    requires a in n.opAt
    ensures OnlyNeighbours(n, RemoveSucc(n, a, b))
  {
  }

  /** The source of `t`, as a set of at most one operator. */
  function SourceSet(n: Net, t: TensorId): (r: set<OpId>)
    requires t in n.tensorAt
    ensures forall a :: a in r <==> n.tensorAt[t].source == Some(a)
  {
    match n.tensorAt[t].source
    case None => {}
    case Some(s) => {s}
  }

  /**
   * The neighbour edits for an operator `c` that now reads `in1` where it read the output of
   * `t2`: `c` drops `t2` as predecessor and, when `in1` has a source, gains it as predecessor,
   * while that source swaps `t1` for `c` among its successors.
   */
  function Relink(n: Net, t1: OpId, t2: OpId, in1: TensorId, c: OpId): (r: Net)
    requires c in n.opAt && in1 in n.tensorAt
    requires n.tensorAt[in1].source.Some? ==> n.tensorAt[in1].source.value in n.opAt
    ensures OnlyNeighbours(n, r)
    ensures forall a :: a in n.opAt ==>
              && r.opAt[a].preds
                 == (if a == c then (n.opAt[a].preds - {t2}) + SourceSet(n, in1) else n.opAt[a].preds)
              && r.opAt[a].succs
                 == (if n.tensorAt[in1].source == Some(a) then (n.opAt[a].succs - {t1}) + {c}
                     else n.opAt[a].succs)
  {
    var m1 := RemovePred(n, c, t2);
    RemovePredOnlyNeighbours(n, c, t2);
    match m1.tensorAt[in1].source
    case None => m1
    case Some(s) =>
      var a1 := AddPred(m1, c, s);
      var a2 := RemoveSucc(a1, s, t1);
      AddPredOnlyNeighbours(m1, c, s);
      RemoveSuccOnlyNeighbours(a1, s, t1);
      AddSuccOnlyNeighbours(a2, s, c);
      OnlyNeighboursTrans(n, m1, a1);
      OnlyNeighboursTrans(n, a1, a2);
      OnlyNeighboursTrans(n, a2, AddSucc(a2, s, c));
      AddSucc(a2, s, c)
  }

  lemma SetTransKeepsRefs(n: Net, a: OpId, k: nat)
    requires a in n.opAt && n.opAt[a].kind.MatMul?
    ensures SameRefs(n, SetTrans(n, a, k))
  {
  }

  lemma ReplaceInputKeepsClosed(n: Net, a: OpId, from: TensorId, to: TensorId)
    requires Closed(n) && a in n.opAt && to in n.tensorAt
    ensures Closed(ReplaceInput(n, a, from, to))
  {
    var r := ReplaceInput(n, a, from, to);
    assert OpClosed(r, r.opAt[a]) by {
      forall t | t in r.opAt[a].inputs ensures t in r.tensorAt {
        var i :| 0 <= i < |r.opAt[a].inputs| && r.opAt[a].inputs[i] == t;
        assert n.opAt[a].inputs[i] in n.opAt[a].inputs;
      }
    }
  }

  lemma SetInputKeepsClosed(n: Net, a: OpId, k: nat, t: TensorId)
    requires Closed(n) && a in n.opAt && k < |n.opAt[a].inputs| && t in n.tensorAt
    ensures Closed(SetInput(n, a, k, t))
  {
    var r := SetInput(n, a, k, t);
    assert OpClosed(r, r.opAt[a]) by {
      forall u | u in r.opAt[a].inputs ensures u in r.tensorAt {
        var i :| 0 <= i < |r.opAt[a].inputs| && r.opAt[a].inputs[i] == u;
        assert n.opAt[a].inputs[i] in n.opAt[a].inputs;
      }
    }
  }

  lemma DropsKeepClosed(n: Net, t: TensorId, o: OpId)
    requires Closed(n)
    ensures Closed(DropTensor(n, t)) && Closed(DropOp(n, o))
  {
  }
}
