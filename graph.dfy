/**
 * `GraphObj` (src/core/graph.cc) as an object whose fields its methods update in place. Every
 * method is proved to leave the object in exactly the state the value model computes (wiring.dfy,
 * topo.dfy, pairs.dfy, fusion.dfy, planning.dfy), so what is proved about those functions holds of
 * the object. The tensor and operator records are entries of two maps held by the graph.
 */
module Graphs {
  import opened Common
  import opened Net
  import opened Wiring
  import opened Edits
  import opened Topo
  import opened Permute
  import opened Pairs
  import opened Fusion
  import opened Arena
  import opened Planning
  import opened Allocation

  class Graph {
    var tensors: seq<TensorId>
    var ops: seq<OpId>
    var tensorAt: map<TensorId, Tensor>
    var opAt: map<OpId, Operator>
    var sorted: bool
    const allocator: Allocator

    function State(): Net
      reads this
    {
      Net(tensors, ops, tensorAt, opAt, sorted)
    }

    /** The graph's records are closed; the allocator keeps its own invariant. */
    ghost predicate Valid()
      reads this
    {
      Closed(State())
    }

    /** A graph with no tensor and no operator, and an allocator that has handed out nothing. */
    constructor ()
      ensures Valid() && State() == EmptyNet
      ensures fresh(allocator) && allocator.Valid() && allocator.State() == Empty
    {
      tensors := [];
      ops := [];
      tensorAt := map[];
      opAt := map[];
      sorted := false;
      allocator := new Allocator();
    }

    // -------------------------------------------------------------------------------------
    // addTensor

    /** `addTensor(dim, dtype)`: a new tensor record `t` with a fresh fuid. */
    method AddNewTensor(t: TensorId, fuid: int, shape: Shape)
      requires Valid() && t !in tensorAt
      modifies this
      ensures Valid() && State() == Wiring.AddNewTensor(old(State()), t, fuid, shape)
    {
      ghost var n := State();
      tensorAt := tensorAt[t := Tensor(fuid, shape, None, [], None)];
      tensors := tensors + [t];
      AddTensorsKeepClosed(n, t, fuid, shape, []);
    }

    /** `addTensor(tensors)`: each existing tensor in turn is appended to the list. */
    method AddTensors(ts: seq<TensorId>)
      requires Valid() && AllKnown(State(), ts)
      modifies this
      ensures Valid() && State() == AddExistingTensors(old(State()), ts)
    {
      ghost var n := State();
      for i := 0 to |ts|
        invariant AllKnown(n, ts[..i]) && State() == AddExistingTensors(n, ts[..i])
      {
        assert ts[..i + 1][..i] == ts[..i];
        tensors := tensors + [ts[i]];
      }
      assert ts[..|ts|] == ts;
      AddExistingTensorsAppends(n, ts);
    }

    // -------------------------------------------------------------------------------------
    // addOperatorAndConnect

    /**
     * `addOperatorAndConnect` for a freshly built operator `o` reading `ins` and writing `outs`:
     * the operator is listed, each input gains it as target and links it after its source, and
     * each output takes it as source and links it before every target.
     */
    method AddOperatorAndConnect(o: OpId, kind: OpKind, ins: seq<TensorId>, outs: seq<TensorId>)
      requires Valid() && o !in opAt && AllKnown(State(), ins) && AllKnown(State(), outs)
      modifies this
      ensures Valid() && State() == AddOperator(old(State()), o, kind, ins, outs)
    {
      ghost var n := State();
      sorted := false;
      ops := ops + [o];
      opAt := opAt[o := Operator(kind, ins, outs, {}, {})];
      ghost var n0 := State();
      assert n0 == Insert(n, o, kind, ins, outs);
      ConnectInputsOf(o, ins);
      TargetsAfterInputs(n0, o, ins);
      ConnectOutputsOf(o, outs);
      AddOperatorKeepsClosed(n, o, kind, ins, outs);
    }

    /** The input loop of `addOperatorAndConnect`. */
    method ConnectInputsOf(o: OpId, ins: seq<TensorId>)
      requires SourcesKnown(State()) && AllKnown(State(), ins) && o in opAt
      modifies this
      ensures State() == ConnectInputs(old(State()), o, ins)
    {
      ghost var n0 := State();
      for i := 0 to |ins|
        invariant AllKnown(n0, ins[..i]) && State() == ConnectInputs(n0, o, ins[..i])
      {
        assert ins[..i + 1][..i] == ins[..i];
        ConnectInputOf(o, ins[i]);
      }
      assert ins[..|ins|] == ins;
    }

    /** One turn of that loop: `o` becomes a target of `t` and is linked after `t`'s source. */
    method ConnectInputOf(o: OpId, t: TensorId)
      requires t in tensorAt && o in opAt
      requires tensorAt[t].source.Some? ==> tensorAt[t].source.value in opAt
      modifies this
      ensures State() == ConnectInput(old(State()), o, t)
    {
      tensorAt := tensorAt[t := tensorAt[t].(targets := tensorAt[t].targets + [o])];
      match tensorAt[t].source {
        case None =>
        case Some(p) =>
          opAt := opAt[p := opAt[p].(succs := opAt[p].succs + {o})];
          opAt := opAt[o := opAt[o].(preds := opAt[o].preds + {p})];
      }
    }

    /** The output loop of `addOperatorAndConnect`. */
    method ConnectOutputsOf(o: OpId, outs: seq<TensorId>)
      requires TargetsKnown(State()) && AllKnown(State(), outs) && o in opAt
      modifies this
      ensures State() == ConnectOutputs(old(State()), o, outs)
    {
      ghost var n1 := State();
      for i := 0 to |outs|
        invariant AllKnown(n1, outs[..i]) && State() == ConnectOutputs(n1, o, outs[..i])
      {
        assert outs[..i + 1][..i] == outs[..i];
        var t := outs[i];
        tensorAt := tensorAt[t := tensorAt[t].(source := Some(o))];
        LinkTargets(o, tensorAt[t].targets);
      }
      assert outs[..|outs|] == outs;
    }

    /** The loop over an output's targets: each gains `o` as predecessor and `o` gains it as successor. */
    method LinkTargets(o: OpId, succs: seq<OpId>)
      requires o in opAt && forall s :: s in succs ==> s in opAt
      modifies this
      ensures State() == LinkAll(old(State()), o, succs)
    {
      ghost var m := State();
      for j := 0 to |succs|
        invariant State() == LinkAll(m, o, succs[..j])
      {
        assert succs[..j + 1][..j] == succs[..j];
        var s := succs[j];
        ghost var before := State();
        opAt := opAt[s := opAt[s].(preds := opAt[s].preds + {o})];
        opAt := opAt[o := opAt[o].(succs := opAt[o].succs + {s})];
        PredsFirst(before.opAt, o, s);
        assert State() == Link(before, o, s);
      }
      assert succs[..|succs|] == succs;
    }

    // -------------------------------------------------------------------------------------
    // topo_sort

    /**
     * `topo_sort`: a sorted graph is left alone; otherwise sweeps over the operator list take,
     * in list order, each operator not yet taken whose inputs all have no source or a source
     * already taken, until every operator is taken (the list becomes that order and the graph is
     * marked sorted) or a sweep takes nothing (false, and nothing changes).
     */
    method TopoSort() returns (ok: bool)
      requires Valid()
      modifies this
      ensures Valid() && (ok, State()) == Topo.TopoSort(old(State()))
    {
      if sorted {
        return true;
      }
      ghost var n := State();
      var order: seq<OpId> := [];
      var flags: set<OpId> := {};
      while |order| < |ops|
        invariant State() == n && (forall x :: x in flags <==> x in order)
        invariant SortFrom(n, order) == SortFrom(n, [])
        decreases |ops| - |order|
      {
        var modified := false;
        ghost var before := order;
        for i := 0 to |ops|
          invariant State() == n && order == Sweep(n, i, before) && (forall x :: x in flags <==> x in order)
          invariant modified <==> |order| > |before|
        {
          var op := ops[i];
          if op !in flags {
            var ready := InputsReady(op, flags);
            if ready {
              modified := true;
              order := order + [op];
              flags := flags + {op};
            }
          }
        }
        if !modified {
          return false;
        }
      }
      ops := order;
      sorted := true;
      ok := true;
      SortIdempotent(n);
    }

    /** The `all_of` test of `topo_sort`: every input of `o` has no source or a taken source. */
    method InputsReady(o: OpId, flags: set<OpId>) returns (ready: bool)
      requires Closed(State()) && o in opAt
      ensures ready <==> forall t :: t in opAt[o].inputs ==> tensorAt[t].source.None? || tensorAt[t].source.value in flags
    {
      var inputs := opAt[o].inputs;
      for i := 0 to |inputs|
        invariant forall j :: 0 <= j < i ==> tensorAt[inputs[j]].source.None? || tensorAt[inputs[j]].source.value in flags
      {
        var src := tensorAt[inputs[i]].source;
        if src.Some? && src.value !in flags {
          return false;
        }
      }
      return true;
    }

    // -------------------------------------------------------------------------------------
    // optimize, rule 1

    /**
     * The rule-1 scan of `optimize`: the first listed operator that starts a pair of Transposes
     * undoing each other is removed with its partner, and the scan stops there.
     */
    method RemoveFirstPair() returns (changed: bool)
      requires Valid()
      modifies this
      ensures Valid() && State() == Rule1Once(old(State()))
      ensures changed == FindPair(old(State()), 0).Some?
    {
      ghost var n := State();
      changed := false;
      for i := 0 to |ops|
        invariant State() == n && FindPair(n, i) == FindPair(n, 0)
      {
        var partner := TransposePairFrom(ops[i]);
        if partner.Some? {
          RemovePair(ops[i], partner.value);
          changed := true;
          break;
        }
      }
      Rule1OnceKeepsClosed(n);
    }

    /** The test of rule 1 for `t1`: its one consumer, when that is a Transpose undoing `t1`. */
    method TransposePairFrom(t1: OpId) returns (t2: Option<OpId>)
      requires Valid() && t1 in opAt
      ensures t2 == PairFrom(State(), t1)
    {
      var x := opAt[t1];
      if !x.kind.Transpose? || |x.inputs| == 0 || |x.outputs| == 0 {
        return None;
      }
      var targets := tensorAt[x.outputs[0]].targets;
      if |targets| != 1 {
        return None;
      }
      var y := opAt[targets[0]];
      if !y.kind.Transpose? || |y.outputs| == 0 {
        return None;
      }
      var inverse := ShouldInverse(x.kind.perm, y.kind.perm);
      t2 := if inverse then Some(targets[0]) else None;
    }

    /**
     * The rewrite of rule 1 for the pair `t1`, `t2`: each consumer of the second output is
     * redirected to the first input, both intermediate tensors lose their source, the first
     * input stops feeding `t1`, and both tensors and both operators leave the lists.
     */
    method RemovePair(t1: OpId, t2: OpId)
      requires Valid() && t1 in opAt && PairFrom(State(), t1) == Some(t2)
      modifies this
      ensures Valid() && State() == Pairs.EliminatePair(old(State()), t1, t2)
    {
      ghost var n := State();
      var input1 := opAt[t1].inputs[0];
      var output1 := opAt[t1].outputs[0];
      var output2 := opAt[t2].outputs[0];
      CutPairM(t1, t2, input1, output1, output2);
      CutPairKeepsClosed(n, t1, t2, input1, output1, output2);
    }

    /** The edits of `RemovePair`, given the first input and the two intermediate tensors. */
    method CutPairM(t1: OpId, t2: OpId, input1: TensorId, output1: TensorId, output2: TensorId)
      requires SourcesKnown(State()) && input1 in tensorAt && output1 in tensorAt && output2 in tensorAt
      requires forall c :: c in tensorAt[output2].targets ==> c in opAt
      modifies this
      ensures State() == CutPair(old(State()), t1, t2, input1, output1, output2)
    {
      ghost var n := State();
      var output2Targets := tensorAt[output2].targets;
      RedirectConsumers(t1, t2, input1, output2, output2Targets);
      ghost var m := State();
      DetachPair(t1, input1, output1, output2);
      ghost var m2 := State();
      tensors := RemoveFirst(tensors, output1);
      tensors := RemoveFirst(tensors, output2);
      ops := RemoveFirst(ops, t1);
      ops := RemoveFirst(ops, t2);
      assert State() == DropOp(DropOp(DropTensor(DropTensor(m2, output1), output2), t1), t2);
    }

    /** Both intermediate tensors lose their source, and the first input stops feeding `t1`. */
    method DetachPair(t1: OpId, input1: TensorId, output1: TensorId, output2: TensorId)
      requires input1 in tensorAt && output1 in tensorAt && output2 in tensorAt
      modifies this
      ensures State() == RemoveTarget(ClearSource(ClearSource(old(State()), output1), output2), input1, t1)
    {
      ghost var m := State();
      tensorAt := tensorAt[output1 := tensorAt[output1].(source := None)];
      tensorAt := tensorAt[output2 := tensorAt[output2].(source := None)];
      ghost var m1 := State();
      assert m1 == ClearSource(ClearSource(m, output1), output2);
      tensorAt := tensorAt[input1 := tensorAt[input1].(targets := RemoveAll(tensorAt[input1].targets, t1))];
    }

    /** The loop over the consumers of the second output, in order. */
    method RedirectConsumers(t1: OpId, t2: OpId, in1: TensorId, out2: TensorId, cs: seq<OpId>)
      requires SourcesKnown(State()) && in1 in tensorAt && forall c :: c in cs ==> c in opAt
      modifies this
      ensures State() == RewireAll(old(State()), t1, t2, in1, out2, cs)
    {
      ghost var n := State();
      for j := 0 to |cs|
        invariant State() == RewireAll(n, t1, t2, in1, out2, cs[..j])
      {
        assert cs[..j + 1][..j] == cs[..j];
        RedirectConsumer(t1, t2, in1, out2, cs[j]);
      }
      assert cs[..|cs|] == cs;
    }

    /**
     * One consumer `c` of the second output: it drops `t2` as predecessor, is linked after the
     * source of `in1` (which drops `t1` as successor), reads `in1` where it read `out2`, and
     * becomes a target of `in1`.
     */
    method RedirectConsumer(t1: OpId, t2: OpId, in1: TensorId, out2: TensorId, c: OpId)
      requires c in opAt && in1 in tensorAt
      requires tensorAt[in1].source.Some? ==> tensorAt[in1].source.value in opAt
      modifies this
      ensures State() == Pairs.RewireConsumer(old(State()), t1, t2, in1, out2, c)
    {
      RelinkNeighbours(t1, t2, in1, c);
      ReplaceInputs(c, out2, in1);
      tensorAt := tensorAt[in1 := tensorAt[in1].(targets := tensorAt[in1].targets + [c])];
    }

    /**
     * The neighbour edits for an operator `c` that now reads `in1` where it read the output of
     * `t2`: `c` drops `t2` as predecessor and, when `in1` has a source, gains it, while that
     * source swaps `t1` for `c` among its successors.
     */
    method RelinkNeighbours(t1: OpId, t2: OpId, in1: TensorId, c: OpId)
      requires c in opAt && in1 in tensorAt
      requires tensorAt[in1].source.Some? ==> tensorAt[in1].source.value in opAt
      modifies this
      ensures State() == Relink(old(State()), t1, t2, in1, c)
    {
      opAt := opAt[c := opAt[c].(preds := opAt[c].preds - {t2})];
      match tensorAt[in1].source {
        case None =>
        case Some(s) =>
          opAt := opAt[c := opAt[c].(preds := opAt[c].preds + {s})];
          opAt := opAt[s := opAt[s].(succs := opAt[s].succs - {t1})];
          opAt := opAt[s := opAt[s].(succs := opAt[s].succs + {c})];
      }
    }

    /** The loop over a consumer's inputs: every slot holding `from` now holds `to`. */
    method ReplaceInputs(c: OpId, from: TensorId, to: TensorId)
      requires c in opAt
      modifies this
      ensures State() == ReplaceInput(old(State()), c, from, to)
    {
      var inputs: seq<TensorId> := opAt[c].inputs;
      ghost var orig: seq<TensorId> := inputs;
      for i := 0 to |inputs|
        invariant State() == old(State()) && |inputs| == |orig|
        invariant forall j :: 0 <= j < i ==> inputs[j] == (if orig[j] == from then to else orig[j])
        invariant forall j :: i <= j < |inputs| ==> inputs[j] == orig[j]
      {
        if inputs[i] == from {
          inputs := inputs[i := to];
        }
      }
      assert inputs == Replace<TensorId>(orig, from, to);
      opAt := opAt[c := opAt[c].(inputs := inputs)];
    }

    // -------------------------------------------------------------------------------------
    // optimize, rule 2 and the pass

    /**
     * `mergeTransposeIntoMatmul(mm, k, k == 0)`: when input `k` of the MatMul `mm` is made by a
     * Transpose swapping the last two axes, the MatMul reads that Transpose's input instead with
     * its flag for side `k` set, and the Transpose is cut out; otherwise nothing changes.
     */
    method MergeTransposeIntoMatmul(mm: OpId, k: nat) returns (merged: bool)
      requires Valid() && mm in opAt && opAt[mm].kind.MatMul?
      modifies this
      ensures Valid()
      ensures merged == Fusable(old(State()), mm, k)
      ensures State() == if merged then Merge(old(State()), mm, k) else old(State())
    {
      ghost var n := State();
      var input, s, tin;
      merged, input, s, tin := FusableInput(mm, k);
      if merged {
        MergeProgress(n, mm, k);
        FuseInto(mm, k, input, s, tin);
      }
    }

    /**
     * The tests of `mergeTransposeIntoMatmul` before it edits anything: input `k` exists, its
     * source is a Transpose swapping the last two axes, and that Transpose has an input.
     */
    method FusableInput(mm: OpId, k: nat) returns (ok: bool, input: TensorId, s: OpId, tin: TensorId)
      requires Valid() && mm in opAt && opAt[mm].kind.MatMul?
      ensures ok == Fusable(State(), mm, k)
      ensures ok ==> k < |opAt[mm].inputs| && input in tensorAt && tin in tensorAt
                     && Merge(State(), mm, k) == Fuse(State(), mm, k, input, s, tin)
    {
      ok, input, s, tin := false, 0, 0, 0;
      if k >= |opAt[mm].inputs| {
        return;
      }
      input := opAt[mm].inputs[k];
      var source := tensorAt[input].source;
      if source.None? || !opAt[source.value].kind.Transpose? {
        return;
      }
      s := source.value;
      var swap := SwapsLastTwo(opAt[s].kind.perm);
      if !swap || |opAt[s].inputs| == 0 {
        return;
      }
      tin := opAt[s].inputs[0];
      ok := true;
    }

    /** The edits of a merge, given the MatMul's input, the Transpose and the Transpose's input. */
    method FuseInto(mm: OpId, k: nat, input: TensorId, s: OpId, tin: TensorId)
      requires SourcesKnown(State()) && mm in opAt && opAt[mm].kind.MatMul? && k < |opAt[mm].inputs|
      requires input in tensorAt && tin in tensorAt
      modifies this
      ensures State() == Fuse(old(State()), mm, k, input, s, tin)
    {
      RewireMatmul(mm, k, s, tin);
      MoveTargets(mm, input, s, tin);
      DropFused(input, s);
    }

    /** `input` leaves the tensor list if nothing reads it any more, and `s` leaves the operators. */
    method DropFused(input: TensorId, s: OpId)
      requires input in tensorAt
      modifies this
      ensures var n := old(State());
              State() == DropOp(if |n.tensorAt[input].targets| == 0 then DropTensor(n, input) else n, s)
    {
      if |tensorAt[input].targets| == 0 {
        tensors := RemoveFirst(tensors, input);
      }
      ops := RemoveFirst(ops, s);
    }

    /** The MatMul reads `tin` at slot `k`, sets its flag for that side, and is relinked. */
    method RewireMatmul(mm: OpId, k: nat, s: OpId, tin: TensorId)
      requires SourcesKnown(State()) && mm in opAt && opAt[mm].kind.MatMul? && k < |opAt[mm].inputs|
      requires tin in tensorAt
      modifies this
      ensures State() == Rewire(old(State()), mm, k, s, tin)
    {
      ghost var n := State();
      opAt := opAt[mm := opAt[mm].(inputs := opAt[mm].inputs[k := tin])];
      var x := opAt[mm];
      if k == 0 {
        opAt := opAt[mm := x.(kind := MatMul(true, x.kind.transB))];
      } else {
        opAt := opAt[mm := x.(kind := MatMul(x.kind.transA, true))];
      }
      assert State() == SetTrans(SetInput(n, mm, k, tin), mm, k);
      RelinkNeighbours(s, s, tin, mm);
    }

    /** `tin` swaps `s` for `mm` among its targets; `input` loses `mm` and its source. */
    method MoveTargets(mm: OpId, input: TensorId, s: OpId, tin: TensorId)
      requires input in tensorAt && tin in tensorAt
      modifies this
      ensures State() == Retarget(old(State()), mm, input, s, tin)
    {
      tensorAt := tensorAt[tin := tensorAt[tin].(targets := RemoveAll(tensorAt[tin].targets, s))];
      tensorAt := tensorAt[tin := tensorAt[tin].(targets := tensorAt[tin].targets + [mm])];
      tensorAt := tensorAt[input := tensorAt[input].(targets := RemoveAll(tensorAt[input].targets, mm))];
      tensorAt := tensorAt[input := tensorAt[input].(source := None)];
    }

    /** The body of the rule-2 scan for one MatMul: input 0 is tried first, then input 1. */
    method MergeEitherInput(mm: OpId) returns (merged: bool)
      requires Valid() && mm in opAt && opAt[mm].kind.MatMul?
      modifies this
      ensures Valid()
      ensures merged == (Fusable(old(State()), mm, 0) || Fusable(old(State()), mm, 1))
      ensures State() == if Fusable(old(State()), mm, 0) then Merge(old(State()), mm, 0)
                         else if Fusable(old(State()), mm, 1) then Merge(old(State()), mm, 1)
                         else old(State())
    {
      merged := MergeTransposeIntoMatmul(mm, 0);
      if !merged {
        merged := MergeTransposeIntoMatmul(mm, 1);
      }
    }

    /**
     * The scan of rule 2: the first listed MatMul whose input 0, or else input 1, can be merged
     * is merged, and the scan stops there.
     */
    method MergeFirst() returns (changed: bool)
      requires Valid()
      modifies this
      ensures Valid() && State() == Rule2Step(old(State()))
      ensures changed == FindMerge(old(State()), 0).Some?
    {
      ghost var n := State();
      Rule2StepProgress(n);
      changed := false;
      for i := 0 to |ops|
        invariant State() == n && FindMerge(n, i) == FindMerge(n, 0)
      {
        var op := ops[i];
        if opAt[op].kind.MatMul? {
          var merged := MergeEitherInput(op);
          if merged {
            assert State() == Rule2Step(n);
            changed := true;
            break;
          }
        }
      }
    }

    /**
     * `optimize`: the rule-1 scan removes at most one pair, then the rule-2 scan is repeated
     * until it merges nothing. The outer loop ends after one round, as the inner loop leaves
     * `changed` false.
     */
    method Optimize()
      requires Valid()
      modifies this
      ensures Valid() && State() == Fusion.Optimize(old(State()))
    {
      ghost var n := State();
      var changed := true;
      while changed
        invariant Valid()
        invariant changed ==> State() == n
        invariant !changed ==> State() == Fusion.Optimize(n)
        decreases changed
      {
        changed := false;
        changed := RemoveFirstPair();
        ghost var n1 := State();
        changed := true;
        while changed
          invariant Valid() && Rule2Loop(State()) == Rule2Loop(n1)
          invariant !changed ==> Rule2Loop(State()) == State()
          decreases |Sourced(tensorAt)| + (if changed then 1 else 0)
        {
          ghost var before := State();
          Rule2StepProgress(before);
          changed := MergeFirst();
        }
      }
    }

    // -------------------------------------------------------------------------------------
    // getTensor, shape_infer

    /** `getTensor(fuid)`: the first listed tensor with that fuid, if any. */
    method FindTensor(fuid: int) returns (t: Option<TensorId>)
      requires Valid()
      ensures t == GetTensor(State(), fuid)
    {
      for i := 0 to |tensors|
        invariant GetTensorFrom(State(), fuid, i) == GetTensor(State(), fuid)
      {
        if tensorAt[tensors[i]].fuid == fuid {
          return Some(tensors[i]);
        }
      }
      return None;
    }

    /**
     * The write-back loop of `shape_infer` for one operator: each output whose inferred shape
     * differs from its own has the shape set on the listed tensor with its fuid. No such tensor
     * fails.
     */
    method WriteOutputShapes(outs: seq<TensorId>, shapes: seq<Shape>) returns (ok: bool)
      requires Valid() && |shapes| == |outs| && forall t :: t in outs ==> t in tensorAt
      modifies this
      ensures Valid() && OnlyShapes(old(State()), State())
      ensures ok == WriteShapes(old(State()), outs, shapes, 0).Some?
      ensures ok ==> State() == WriteShapes(old(State()), outs, shapes, 0).value
    {
      ghost var n := State();
      for j := 0 to |outs|
        invariant Valid() && OnlyShapes(n, State())
        invariant WriteShapes(State(), outs, shapes, j) == WriteShapes(n, outs, shapes, 0)
      {
        ghost var before := State();
        ok := WriteOutputShape(outs, shapes, j);
        OnlyShapesTrans(n, before, State());
        if !ok {
          return;
        }
      }
      ok := true;
    }

    /** One turn of the write-back loop, for output `j`. */
    method WriteOutputShape(outs: seq<TensorId>, shapes: seq<Shape>, j: nat) returns (ok: bool)
      requires Valid() && |shapes| == |outs| && j < |outs| && forall t :: t in outs ==> t in tensorAt
      modifies this
      ensures Valid() && OnlyShapes(old(State()), State())
      ensures !ok ==> WriteShapes(old(State()), outs, shapes, j).None?
      ensures ok ==> WriteShapes(old(State()), outs, shapes, j) == WriteShapes(State(), outs, shapes, j + 1)
    {
      var out := outs[j];
      ok := true;
      if shapes[j] != tensorAt[out].shape {
        var t := FindTensor(tensorAt[out].fuid);
        if t.None? {
          return false;
        }
        ghost var before := State();
        GetTensorListed(before, tensorAt[out].fuid);
        tensorAt := tensorAt[t.value := tensorAt[t.value].(shape := shapes[j])];
        assert State() == SetShape(before, t.value, shapes[j]);
        OnlyShapesKeepClosed(before, State());
      }
    }

    /**
     * `shape_infer`: every listed operator, in list order, infers its output shapes from the
     * current shapes of its inputs, and the outputs take them. A failed assertion fails; the
     * state it leaves is not described.
     */
    method ShapeInfer(rules: Rules) returns (ok: bool)
      requires Valid()
      modifies this
      ensures Valid() && OnlyShapes(old(State()), State())
      ensures ok == Planning.ShapeInfer(old(State()), rules).Some?
      ensures ok ==> State() == Planning.ShapeInfer(old(State()), rules).value
    {
      ghost var n := State();
      for k := 0 to |ops|
        invariant Valid() && OnlyShapes(n, State())
        invariant ShapeInferFrom(State(), k, rules) == ShapeInferFrom(n, 0, rules)
      {
        var o := ops[k];
        var ans := InferOp(State(), o, rules);
        if ans.None? || |ans.value| != |opAt[o].outputs| {
          return false;
        }
        ghost var before := State();
        assert OpClosed(before, opAt[o]);
        ok := WriteOutputShapes(opAt[o].outputs, ans.value);
        OnlyShapesTrans(n, before, State());
        if !ok {
          return false;
        }
      }
      ok := true;
    }

    // -------------------------------------------------------------------------------------
    // dataMalloc

    /**
     * `dataMalloc`: sort, then one `alloc` per listed tensor in list order with its byte size,
     * then `getPtr`, then every listed tensor is bound to the base pointer plus its offset.
     * `bytes` stands for `getBytes` and `runtimeBase` for what the runtime hands to the first
     * `getPtr`. A failed assertion fails; the state it leaves is not described.
     */
    method DataMalloc(bytes: Tensor -> nat, runtimeBase: int) returns (ok: bool)
      requires Valid() && allocator.Valid()
      modifies this, allocator
      ensures Valid() && allocator.Valid()
      ensures var r := Planning.DataMalloc(old(State()), old(allocator.State()), old(allocator.base), runtimeBase, bytes);
              && ok == r.Some?
              && (ok ==> State() == r.value.0 && allocator.State() == r.value.1 && allocator.base == r.value.2)
    {
      ok := TopoSort();
      if !ok {
        return;
      }
      var offsets;
      ghost var offs;
      ok, offsets, offs := AllocateAll(bytes);
      if !ok {
        return;
      }
      var ptr := allocator.GetPtr(runtimeBase);
      BindAll(offsets, ptr);
    }

    /** The allocation loop of `dataMalloc`: one `alloc` per listed tensor, recording its offset. */
    method AllocateAll(bytes: Tensor -> nat) returns (ok: bool, offsets: map<TensorId, nat>, ghost offs: seq<nat>)
      requires Valid() && allocator.Valid()
      modifies allocator
      ensures allocator.Valid() && allocator.base == old(allocator.base)
      ensures ok == AllocAll(old(allocator.State()), Sizes(State(), bytes)).Some?
      ensures ok ==> AllocAll(old(allocator.State()), Sizes(State(), bytes)) == Some((allocator.State(), offs))
                     && offsets == OffsetMap(tensors, offs)
    {
      ghost var a0 := allocator.State();
      ghost var sizes := Sizes(State(), bytes);
      offsets, offs := map[], [];
      for i := 0 to |tensors|
        invariant allocator.Valid() && allocator.base == old(allocator.base)
        invariant AllocAll(a0, sizes[..i]) == Some((allocator.State(), offs))
        invariant offsets == OffsetMap(tensors[..i], offs)
      {
        var t := tensors[i];
        var placed, off := allocator.Alloc(bytes(tensorAt[t]));
        AllocAllNext(a0, sizes, i);
        if !placed {
          AllocAllPrefixFails(a0, sizes, i + 1);
          return false, offsets, offs;
        }
        OffsetMapNext(tensors, offs, i, off);
        offsets := offsets[t := off];
        offs := offs + [off];
      }
      assert sizes[..|tensors|] == sizes && tensors[..|tensors|] == tensors;
      ok := true;
    }

    /** The binding loop of `dataMalloc`: each listed tensor gets `ptr` plus its offset. */
    method BindAll(offsets: map<TensorId, nat>, ptr: int)
      requires Valid() && forall t :: t in tensors ==> t in offsets
      modifies this
      ensures Valid() && State() == Bind(old(State()), old(tensors), offsets, ptr)
    {
      ghost var n := State();
      for i := 0 to |tensors|
        invariant State() == Bind(n, n.tensors[..i], offsets, ptr)
      {
        BindOne(n, offsets, ptr, i);
      }
      assert n.tensors[..|n.tensors|] == n.tensors;
      BindOnlyBlobs(n, n.tensors, offsets, ptr);
      OnlyBlobsKeepClosed(n, State());
    }

    /** One turn of the binding loop: the `i`-th listed tensor gets `ptr` plus its offset. */
    method BindOne(ghost n: Net, offsets: map<TensorId, nat>, ptr: int, i: nat)
      requires i < |n.tensors| && forall t :: t in n.tensors ==> t in n.tensorAt && t in offsets
      requires State() == Bind(n, n.tensors[..i], offsets, ptr)
      modifies this
      ensures State() == Bind(n, n.tensors[..i + 1], offsets, ptr)
    {
      var t := tensors[i];
      BindNext(n, n.tensors, offsets, ptr, i, State(), t);
      tensorAt := tensorAt[t := tensorAt[t].(blob := Some(ptr + offsets[t]))];
    }
  }

  /**
   * `shouldSwap`: at least two axes, each axis but the last two in place, and the last two
   * exchanged.
   */
  method SwapsLastTwo(perm: seq<int>) returns (swap: bool)
    ensures swap == ShouldSwap(perm)
  {
    if |perm| < 2 {
      return false;
    }
    for i := 0 to |perm| - 2
      invariant forall j :: 0 <= j < i ==> perm[j] == j
    {
      if perm[i] != i {
        return false;
      }
    }
    swap := perm[|perm| - 2] == |perm| - 1 && perm[|perm| - 1] == |perm| - 2;
  }

  /**
   * The inverse test of rule 1: the composition `perm2[perm1[i]]`, written to a buffer, is the
   * identity. An entry of `perm1` that is no axis of `perm2` is an out-of-range read in the
   * source; here it makes the test fail.
   */
  method ShouldInverse(perm1: seq<int>, perm2: seq<int>) returns (inverse: bool)
    ensures inverse == IsInverse(perm1, perm2)
  {
    var tmp := new int[|perm1|];
    for i := 0 to |perm1|
      invariant forall j :: 0 <= j < i ==> 0 <= perm1[j] < |perm2| && tmp[j] == perm2[perm1[j]]
    {
      if !(0 <= perm1[i] < |perm2|) {
        return false;
      }
      tmp[i] := perm2[perm1[i]];
    }
    inverse := true;
    var i := 0;
    while i < tmp.Length
      invariant 0 <= i <= tmp.Length && forall j :: 0 <= j < i ==> tmp[j] == j
    {
      if tmp[i] != i {
        inverse := false;
        break;
      }
      i := i + 1;
    }
  }

  /** Adding the predecessor before the successor gives the same records as `Link`. */
  lemma PredsFirst(m: map<OpId, Operator>, p: OpId, s: OpId)
    requires p in m && s in m
    ensures var m1 := m[s := m[s].(preds := m[s].preds + {p})];
            var l1 := m[p := m[p].(succs := m[p].succs + {s})];
            m1[p := m1[p].(succs := m1[p].succs + {s})] == l1[s := l1[s].(preds := l1[s].preds + {p})]
  {
  }
}
