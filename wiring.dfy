/**
 * Building a graph: `addTensor` and `addOperatorAndConnect` (src/core/graph.cc) as functions on
 * the state value. The tensor and operator helpers they call (`addTarget`, `setSource`,
 * `addPredecessors`, `addSuccessors`) are plain appends and set insertions here.
 */
module Wiring {
  import opened Common
  import opened Net

  // ---------------------------------------------------------------------------------------
  // Elementary updates

  /** Every tensor keeps its source. */
  ghost predicate SameSources(n: Net, m: Net) {
    && m.tensorAt.Keys == n.tensorAt.Keys
    && forall t :: t in n.tensorAt ==> m.tensorAt[t].source == n.tensorAt[t].source
  }

  /** Every tensor keeps its targets. */
  ghost predicate SameTargets(n: Net, m: Net) {
    && m.tensorAt.Keys == n.tensorAt.Keys
    && forall t :: t in n.tensorAt ==> m.tensorAt[t].targets == n.tensorAt[t].targets
  }

  /** `t->addTarget(o)`. */
  function AddTarget(n: Net, t: TensorId, o: OpId): (r: Net)
    requires t in n.tensorAt
    ensures r.opAt == n.opAt && SameSources(n, r)
  {
    var x := n.tensorAt[t];
    n.(tensorAt := n.tensorAt[t := x.(targets := x.targets + [o])])
  }

  /** `t->setSource(o)`. */
  function SetSource(n: Net, t: TensorId, o: OpId): (r: Net)
    requires t in n.tensorAt
    ensures r.opAt == n.opAt && SameTargets(n, r)
  {
    var x := n.tensorAt[t];
    n.(tensorAt := n.tensorAt[t := x.(source := Some(o))])
  }

  /** `p->addSuccessors(s)` together with `s->addPredecessors(p)`. */
  function Link(n: Net, p: OpId, s: OpId): (r: Net)
    requires p in n.opAt && s in n.opAt
    ensures r.tensorAt == n.tensorAt && r.opAt.Keys == n.opAt.Keys
  {
    var x := n.opAt[p];
    var n1 := n.(opAt := n.opAt[p := x.(succs := x.succs + {s})]);
    var y := n1.opAt[s];
    n1.(opAt := n1.opAt[s := y.(preds := y.preds + {p})])
  }

  // ---------------------------------------------------------------------------------------
  // addOperatorAndConnect

  ghost predicate AllKnown(n: Net, ts: seq<TensorId>) {
    forall t :: t in ts ==> t in n.tensorAt
  }

  /** One input: the operator becomes a target, and is linked after the tensor's source. */
  function ConnectInput(n: Net, o: OpId, t: TensorId): (r: Net)
    requires t in n.tensorAt && o in n.opAt
    requires n.tensorAt[t].source.Some? ==> n.tensorAt[t].source.value in n.opAt
    ensures r.opAt.Keys == n.opAt.Keys && SameSources(n, r)
  {
    var n1 := AddTarget(n, t, o);
    match n1.tensorAt[t].source
    case None => n1
    case Some(s) => Link(n1, s, o)
  }

  function ConnectInputs(n: Net, o: OpId, ins: seq<TensorId>): (r: Net)
    requires SourcesKnown(n) && AllKnown(n, ins) && o in n.opAt
    ensures r.opAt.Keys == n.opAt.Keys && SameSources(n, r)
  {
    if ins == [] then n
    else
      var m := ConnectInputs(n, o, ins[..|ins| - 1]);
      ConnectInput(m, o, ins[|ins| - 1])
  }

  /** `p` is linked before every operator of `succs`, in order. */
  function LinkAll(n: Net, p: OpId, succs: seq<OpId>): (r: Net)
    requires p in n.opAt && forall s :: s in succs ==> s in n.opAt
    ensures r.opAt.Keys == n.opAt.Keys && r.tensorAt == n.tensorAt
  {
    if succs == [] then n
    else Link(LinkAll(n, p, succs[..|succs| - 1]), p, succs[|succs| - 1])
  }

  /** One output: the operator becomes its source and is linked before its targets. */
  function ConnectOutput(n: Net, o: OpId, t: TensorId): (r: Net)
    requires t in n.tensorAt && o in n.opAt
    requires forall x :: x in n.tensorAt[t].targets ==> x in n.opAt
    ensures r.opAt.Keys == n.opAt.Keys && SameTargets(n, r)
  {
    var n1 := SetSource(n, t, o);
    LinkAll(n1, o, n1.tensorAt[t].targets)
  }

  function ConnectOutputs(n: Net, o: OpId, outs: seq<TensorId>): (r: Net)
    requires TargetsKnown(n) && AllKnown(n, outs) && o in n.opAt
    ensures r.opAt.Keys == n.opAt.Keys && SameTargets(n, r)
  {
    if outs == [] then n
    else
      var m := ConnectOutputs(n, o, outs[..|outs| - 1]);
      ConnectOutput(m, o, outs[|outs| - 1])
  }

  /** The new operator's record, listed and not yet connected; the graph is no longer sorted. */
  function Insert(n: Net, o: OpId, kind: OpKind, ins: seq<TensorId>, outs: seq<TensorId>): (r: Net)
    requires o !in n.opAt
    ensures r.opAt.Keys == n.opAt.Keys + {o} && r.tensorAt == n.tensorAt
  {
    n.(sorted := false, ops := n.ops + [o], opAt := n.opAt[o := Operator(kind, ins, outs, {}, {})])
  }

  /** `addOperatorAndConnect` for a freshly built operator `o`. */
  function AddOperator(n: Net, o: OpId, kind: OpKind, ins: seq<TensorId>, outs: seq<TensorId>): Net
    requires Closed(n) && o !in n.opAt && AllKnown(n, ins) && AllKnown(n, outs)
  {
    var n0 := Insert(n, o, kind, ins, outs);
    var n1 := ConnectInputs(n0, o, ins);
    assert TargetsKnown(n1) by { TargetsAfterInputs(n0, o, ins); }
    ConnectOutputs(n1, o, outs)
  }

  /** Connecting inputs only adds `o`, a known operator, to targets. */
  lemma {:induction false} TargetsAfterInputs(n: Net, o: OpId, ins: seq<TensorId>)
    requires SourcesKnown(n) && TargetsKnown(n) && AllKnown(n, ins) && o in n.opAt
    ensures TargetsKnown(ConnectInputs(n, o, ins))
    decreases |ins|
  {
    if ins != [] {
      TargetsAfterInputs(n, o, ins[..|ins| - 1]);
    }
  }

  // ---------------------------------------------------------------------------------------
  // addTensor

  /** `addTensor(dim, dtype)`: a new source-less, target-less tensor `t`, appended to the list. */
  function AddNewTensor(n: Net, t: TensorId, fuid: int, shape: Shape): (r: Net)
    requires t !in n.tensorAt
    ensures r.tensorAt.Keys == n.tensorAt.Keys + {t} && r.opAt == n.opAt && t in r.tensors
  {
    n.(tensors := n.tensors + [t], tensorAt := n.tensorAt[t := Tensor(fuid, shape, None, [], None)])
  }

  /** `addTensor(tensor)`: an existing tensor record appended to the list. */
  function AddExistingTensor(n: Net, t: TensorId): (r: Net)
    requires t in n.tensorAt
    ensures r.tensorAt == n.tensorAt && r.opAt == n.opAt && t in r.tensors
  {
    n.(tensors := n.tensors + [t])
  }

  /** `addTensor(tensors)`: each in turn. */
  function AddExistingTensors(n: Net, ts: seq<TensorId>): (r: Net)
    requires AllKnown(n, ts)
    ensures r.tensorAt == n.tensorAt && r.opAt == n.opAt
  {
    if ts == [] then n else AddExistingTensor(AddExistingTensors(n, ts[..|ts| - 1]), ts[|ts| - 1])
  }

  /** Adding tensors appends them to the list, in order, and changes nothing else. */
  lemma {:induction false} AddExistingTensorsAppends(n: Net, ts: seq<TensorId>)
    requires AllKnown(n, ts)
    ensures AddExistingTensors(n, ts) == n.(tensors := n.tensors + ts)
    decreases |ts|
  {
    if ts != [] {
      AddExistingTensorsAppends(n, ts[..|ts| - 1]);
      assert n.tensors + ts[..|ts| - 1] + [ts[|ts| - 1]] == n.tensors + ts;
    }
  }

  /** Adding tensors keeps the state closed. */
  lemma AddTensorsKeepClosed(n: Net, t: TensorId, fuid: int, shape: Shape, ts: seq<TensorId>)
    requires Closed(n) && t !in n.tensorAt && AllKnown(n, ts)
    ensures Closed(AddNewTensor(n, t, fuid, shape))
    ensures Closed(AddExistingTensors(n, ts))
  {
    AddExistingTensorsAppends(n, ts);
  }

  // ---------------------------------------------------------------------------------------
  // Connecting keeps the state closed

  lemma AddTargetKeepsClosed(n: Net, t: TensorId, o: OpId)
    requires Closed(n) && t in n.tensorAt && o in n.opAt
    ensures Closed(AddTarget(n, t, o))
  {
  }

  lemma SetSourceKeepsClosed(n: Net, t: TensorId, o: OpId)
    requires Closed(n) && t in n.tensorAt && o in n.opAt
    ensures Closed(SetSource(n, t, o))
  {
  }

  lemma LinkKeepsClosed(n: Net, p: OpId, s: OpId)
    requires Closed(n) && p in n.opAt && s in n.opAt
    ensures Closed(Link(n, p, s))
  {
  }

  lemma {:induction false} ConnectInputsKeepClosed(n: Net, o: OpId, ins: seq<TensorId>)
    requires Closed(n) && AllKnown(n, ins) && o in n.opAt
    ensures Closed(ConnectInputs(n, o, ins))
    decreases |ins|
  {
    if ins != [] {
      var m := ConnectInputs(n, o, ins[..|ins| - 1]);
      var t := ins[|ins| - 1];
      ConnectInputsKeepClosed(n, o, ins[..|ins| - 1]);
      AddTargetKeepsClosed(m, t, o);
      var m1 := AddTarget(m, t, o);
      if m1.tensorAt[t].source.Some? {
        LinkKeepsClosed(m1, m1.tensorAt[t].source.value, o);
      }
    }
  }

  lemma {:induction false} LinkAllKeepsClosed(n: Net, p: OpId, succs: seq<OpId>)
    requires Closed(n) && p in n.opAt && forall s :: s in succs ==> s in n.opAt
    ensures Closed(LinkAll(n, p, succs))
    decreases |succs|
  {
    if succs != [] {
      LinkAllKeepsClosed(n, p, succs[..|succs| - 1]);
      LinkKeepsClosed(LinkAll(n, p, succs[..|succs| - 1]), p, succs[|succs| - 1]);
    }
  }

  lemma {:induction false} ConnectOutputsKeepClosed(n: Net, o: OpId, outs: seq<TensorId>)
    requires Closed(n) && AllKnown(n, outs) && o in n.opAt
    ensures Closed(ConnectOutputs(n, o, outs))
    decreases |outs|
  {
    if outs != [] {
      var m := ConnectOutputs(n, o, outs[..|outs| - 1]);
      var t := outs[|outs| - 1];
      ConnectOutputsKeepClosed(n, o, outs[..|outs| - 1]);
      SetSourceKeepsClosed(m, t, o);
      var m1 := SetSource(m, t, o);
      LinkAllKeepsClosed(m1, o, m1.tensorAt[t].targets);
    }
  }

  /** `addOperatorAndConnect` leaves no reference dangling. */
  lemma AddOperatorKeepsClosed(n: Net, o: OpId, kind: OpKind, ins: seq<TensorId>, outs: seq<TensorId>)
    requires Closed(n) && o !in n.opAt && AllKnown(n, ins) && AllKnown(n, outs)
    ensures Closed(AddOperator(n, o, kind, ins, outs))
  {
    var n0 := Insert(n, o, kind, ins, outs);
    assert Closed(n0);
    ConnectInputsKeepClosed(n0, o, ins);
    ConnectOutputsKeepClosed(ConnectInputs(n0, o, ins), o, outs);
  }

  // ---------------------------------------------------------------------------------------
  // What connecting does

  /** `y` is `x` with possibly more neighbours. */
  ghost predicate KeepsOp(x: Operator, y: Operator) {
    && y.kind == x.kind && y.inputs == x.inputs && y.outputs == x.outputs
    && x.preds <= y.preds && x.succs <= y.succs
  }

  /** `y` is `x` with possibly another source and more targets appended. */
  ghost predicate KeepsTensor(x: Tensor, y: Tensor) {
    && y.fuid == x.fuid && y.shape == x.shape && y.blob == x.blob
    && x.targets <= y.targets
  }

  /** `m` grows `n`: the same lists and records, each record kept as above. */
  ghost predicate Grows(n: Net, m: Net) {
    && m.ops == n.ops && m.tensors == n.tensors && m.sorted == n.sorted
    && m.opAt.Keys == n.opAt.Keys && m.tensorAt.Keys == n.tensorAt.Keys
    && (forall a :: a in n.opAt ==> KeepsOp(n.opAt[a], m.opAt[a]))
    && (forall t :: t in n.tensorAt ==> KeepsTensor(n.tensorAt[t], m.tensorAt[t]))
  }

  lemma GrowsTrans(a: Net, b: Net, c: Net)
    requires Grows(a, b) && Grows(b, c)
    ensures Grows(a, c)
  {
    forall t | t in a.tensorAt ensures KeepsTensor(a.tensorAt[t], c.tensorAt[t]) {
      PrefixTrans(a.tensorAt[t].targets, b.tensorAt[t].targets, c.tensorAt[t].targets);
    }
  }

  lemma PrefixTrans<T>(x: seq<T>, y: seq<T>, z: seq<T>)
    requires x <= y && y <= z
    ensures x <= z
  {
    assert x == y[..|x|] && y == z[..|y|];
    assert z[..|y|][..|x|] == z[..|x|];
  }

  lemma PrefixHas<T>(x: seq<T>, y: seq<T>, e: T)
    requires x <= y && e in x
    ensures e in y
  {
    var i :| 0 <= i < |x| && x[i] == e;
    assert y[i] == e;
  }

  /** `addTarget` appends the operator to the tensor's targets. */
  lemma AddTargetGrows(n: Net, t: TensorId, o: OpId)
    requires t in n.tensorAt
    ensures var r := AddTarget(n, t, o);
            Grows(n, r) && r.tensorAt[t].targets == n.tensorAt[t].targets + [o]
  {
  }

  /** Linking records each operator as the other's neighbour. */
  lemma LinkGrows(n: Net, p: OpId, s: OpId)
    requires p in n.opAt && s in n.opAt
    ensures var r := Link(n, p, s);
            Grows(n, r) && s in r.opAt[p].succs && p in r.opAt[s].preds
  {
  }

  /** `setSource` replaces one tensor's source and keeps every other. */
  lemma SetSourceGrows(n: Net, t: TensorId, o: OpId)
    requires t in n.tensorAt
    ensures var r := SetSource(n, t, o);
            && Grows(n, r) && r.tensorAt[t].source == Some(o)
            && forall u :: u in n.tensorAt && u != t ==> r.tensorAt[u].source == n.tensorAt[u].source
  {
  }

  /** One input is wired: `o` is one of its targets and follows its source. */
  lemma ConnectInputStep(n: Net, o: OpId, t: TensorId)
    requires t in n.tensorAt && o in n.opAt
    requires n.tensorAt[t].source.Some? ==> n.tensorAt[t].source.value in n.opAt
    ensures var r := ConnectInput(n, o, t);
            && Grows(n, r) && o in r.tensorAt[t].targets
            && (n.tensorAt[t].source.Some? ==>
                  var s := n.tensorAt[t].source.value;
                  s in r.opAt[o].preds && o in r.opAt[s].succs)
  {
    AddTargetGrows(n, t, o);
    var n1 := AddTarget(n, t, o);
    assert o in n1.tensorAt[t].targets by {
      assert n1.tensorAt[t].targets[|n.tensorAt[t].targets|] == o;
    }
    if n1.tensorAt[t].source.Some? {
      var s := n1.tensorAt[t].source.value;
      LinkGrows(n1, s, o);
      GrowsTrans(n, n1, Link(n1, s, o));
      PrefixHas(n1.tensorAt[t].targets, Link(n1, s, o).tensorAt[t].targets, o);
    }
  }

  lemma InInit<T>(xs: seq<T>, e: T)
    requires e in xs
    ensures e in xs[..|xs| - 1] || e == xs[|xs| - 1]
  {
    var k :| 0 <= k < |xs| && xs[k] == e;
    if k < |xs| - 1 {
      assert xs[..|xs| - 1][k] == e;
    }
  }

  /** Connecting inputs grows the state and wires every input. */
  lemma {:induction false} ConnectInputsWires(n: Net, o: OpId, ins: seq<TensorId>)
    requires SourcesKnown(n) && AllKnown(n, ins) && o in n.opAt
    ensures var r := ConnectInputs(n, o, ins);
            && Grows(n, r)
            && forall t :: t in ins ==>
                 && o in r.tensorAt[t].targets
                 && (n.tensorAt[t].source.Some? ==>
                       var s := n.tensorAt[t].source.value;
                       s in r.opAt[o].preds && o in r.opAt[s].succs)
    decreases |ins|
  {
    if ins != [] {
      var init := ins[..|ins| - 1];
      var t := ins[|ins| - 1];
      var m := ConnectInputs(n, o, init);
      ConnectInputsWires(n, o, init);
      ConnectInputStep(m, o, t);
      var r := ConnectInput(m, o, t);
      GrowsTrans(n, m, r);
      forall u | u in ins
        ensures o in r.tensorAt[u].targets
        ensures n.tensorAt[u].source.Some? ==>
                  var s := n.tensorAt[u].source.value;
                  s in r.opAt[o].preds && o in r.opAt[s].succs
      {
        InInit(ins, u);
        if u in init {
          PrefixHas(m.tensorAt[u].targets, r.tensorAt[u].targets, o);
        }
      }
    }
  }

  /** Linking `p` before each of `succs` grows the state and links every one of them. */
  lemma {:induction false} LinkAllWires(n: Net, p: OpId, succs: seq<OpId>)
    requires p in n.opAt && forall s :: s in succs ==> s in n.opAt
    ensures var r := LinkAll(n, p, succs);
            && Grows(n, r)
            && forall s :: s in succs ==> s in r.opAt[p].succs && p in r.opAt[s].preds
    decreases |succs|
  {
    if succs != [] {
      var init := succs[..|succs| - 1];
      var m := LinkAll(n, p, init);
      LinkAllWires(n, p, init);
      LinkGrows(m, p, succs[|succs| - 1]);
      GrowsTrans(n, m, LinkAll(n, p, succs));
      forall s | s in succs ensures s in init || s == succs[|succs| - 1] {
        InInit(succs, s);
      }
    }
  }

  /** One output is wired: `o` is its source and precedes each of its targets. */
  lemma ConnectOutputStep(n: Net, o: OpId, t: TensorId)
    requires t in n.tensorAt && o in n.opAt
    requires forall x :: x in n.tensorAt[t].targets ==> x in n.opAt
    ensures var r := ConnectOutput(n, o, t);
            && Grows(n, r) && r.tensorAt[t].source == Some(o)
            && (forall u :: u in n.tensorAt && u != t ==> r.tensorAt[u].source == n.tensorAt[u].source)
            && forall x :: x in n.tensorAt[t].targets ==> x in r.opAt[o].succs && o in r.opAt[x].preds
  {
    SetSourceGrows(n, t, o);
    var n1 := SetSource(n, t, o);
    LinkAllWires(n1, o, n1.tensorAt[t].targets);
    GrowsTrans(n, n1, ConnectOutput(n, o, t));
  }

  /**
   * Connecting outputs grows the state, makes `o` the source of each output, and links `o`
   * before every target each output had.
   */
  lemma {:induction false} ConnectOutputsWires(n: Net, o: OpId, outs: seq<TensorId>)
    requires TargetsKnown(n) && AllKnown(n, outs) && o in n.opAt
    ensures var r := ConnectOutputs(n, o, outs);
            && Grows(n, r)
            && (forall u :: u in n.tensorAt && u !in outs ==> r.tensorAt[u].source == n.tensorAt[u].source)
            && forall t :: t in outs ==>
                 && r.tensorAt[t].source == Some(o)
                 && forall x :: x in n.tensorAt[t].targets ==> x in r.opAt[o].succs && o in r.opAt[x].preds
    decreases |outs|
  {
    if outs != [] {
      var init := outs[..|outs| - 1];
      var t := outs[|outs| - 1];
      var m := ConnectOutputs(n, o, init);
      ConnectOutputsWires(n, o, init);
      ConnectOutputStep(m, o, t);
      var r := ConnectOutput(m, o, t);
      GrowsTrans(n, m, r);
      forall u | u in n.tensorAt && u !in outs ensures r.tensorAt[u].source == n.tensorAt[u].source {
        assert u !in init && u != t;
      }
      forall u | u in outs
        ensures r.tensorAt[u].source == Some(o)
        ensures forall x :: x in n.tensorAt[u].targets ==> x in r.opAt[o].succs && o in r.opAt[x].preds
      {
        InInit(outs, u);
      }
    }
  }

  /** The state after connecting both sides, with everything the two folds establish. */
  lemma ConnectBoth(n0: Net, o: OpId, ins: seq<TensorId>, outs: seq<TensorId>)
    requires SourcesKnown(n0) && TargetsKnown(n0) && o in n0.opAt && AllKnown(n0, ins) && AllKnown(n0, outs)
    ensures TargetsKnown(ConnectInputs(n0, o, ins))
    ensures var n1 := ConnectInputs(n0, o, ins);
            var r := ConnectOutputs(n1, o, outs);
            && Grows(n0, n1) && Grows(n0, r)
            && (forall t :: t in ins ==>
                  && o in r.tensorAt[t].targets
                  && (n0.tensorAt[t].source.Some? ==>
                        var s := n0.tensorAt[t].source.value;
                        s in r.opAt[o].preds && o in r.opAt[s].succs))
            && forall t :: t in outs ==>
                 && r.tensorAt[t].source == Some(o)
                 && forall x :: x in n1.tensorAt[t].targets ==> x in r.opAt[o].succs && o in r.opAt[x].preds
  {
    ConnectInputsWires(n0, o, ins);
    var n1 := ConnectInputs(n0, o, ins);
    TargetsAfterInputs(n0, o, ins);
    ConnectOutputsWires(n1, o, outs);
    var r := ConnectOutputs(n1, o, outs);
    GrowsTrans(n0, n1, r);
    forall t | t in ins ensures o in r.tensorAt[t].targets {
      PrefixHas(n1.tensorAt[t].targets, r.tensorAt[t].targets, o);
    }
  }

  // ---------------------------------------------------------------------------------------
  // What connecting does not do

  /** `k` copies of `o`. */
  function Copies(o: OpId, k: nat): (r: seq<OpId>)
    ensures |r| == k && forall i :: 0 <= i < k ==> r[i] == o
  {
    seq(k, _ => o)
  }

  /** From `n` to `m` every operator other than `o` gains at most `o` as a neighbour. */
  ghost predicate OnlyNear(n: Net, m: Net, o: OpId) {
    && m.opAt.Keys == n.opAt.Keys
    && forall a :: a in n.opAt && a != o ==>
         && m.opAt[a].preds <= n.opAt[a].preds + {o}
         && m.opAt[a].succs <= n.opAt[a].succs + {o}
  }

  /** A link with `o` at one end leaves every other operator near `o` only. */
  lemma LinkNear(n: Net, p: OpId, s: OpId, o: OpId)
    requires p in n.opAt && s in n.opAt && (p == o || s == o)
    ensures OnlyNear(n, Link(n, p, s), o)
  {
  }

  lemma {:induction false} ConnectInputsNear(n: Net, o: OpId, ins: seq<TensorId>)
    requires SourcesKnown(n) && AllKnown(n, ins) && o in n.opAt
    ensures OnlyNear(n, ConnectInputs(n, o, ins), o)
    decreases |ins|
  {
    if ins != [] {
      var m := ConnectInputs(n, o, ins[..|ins| - 1]);
      var t := ins[|ins| - 1];
      ConnectInputsNear(n, o, ins[..|ins| - 1]);
      var m1 := AddTarget(m, t, o);
      if m1.tensorAt[t].source.Some? {
        LinkNear(m1, m1.tensorAt[t].source.value, o, o);
      }
    }
  }

  lemma {:induction false} LinkAllNear(n: Net, o: OpId, succs: seq<OpId>)
    requires o in n.opAt && forall s :: s in succs ==> s in n.opAt
    ensures OnlyNear(n, LinkAll(n, o, succs), o)
    decreases |succs|
  {
    if succs != [] {
      LinkAllNear(n, o, succs[..|succs| - 1]);
      LinkNear(LinkAll(n, o, succs[..|succs| - 1]), o, succs[|succs| - 1], o);
    }
  }

  lemma {:induction false} ConnectOutputsNear(n: Net, o: OpId, outs: seq<TensorId>)
    requires TargetsKnown(n) && AllKnown(n, outs) && o in n.opAt
    ensures OnlyNear(n, ConnectOutputs(n, o, outs), o)
    decreases |outs|
  {
    if outs != [] {
      var m := ConnectOutputs(n, o, outs[..|outs| - 1]);
      var t := outs[|outs| - 1];
      ConnectOutputsNear(n, o, outs[..|outs| - 1]);
      var m1 := SetSource(m, t, o);
      LinkAllNear(m1, o, m1.tensorAt[t].targets);
    }
  }

  /** Connecting inputs appends `o` to each tensor's targets once per slot that reads it. */
  lemma {:induction false} ConnectInputsTargets(n: Net, o: OpId, ins: seq<TensorId>)
    requires SourcesKnown(n) && AllKnown(n, ins) && o in n.opAt
    ensures var r := ConnectInputs(n, o, ins);
            forall t :: t in n.tensorAt ==>
              r.tensorAt[t].targets == n.tensorAt[t].targets + Copies(o, multiset(ins)[t])
    decreases |ins|
  {
    if ins != [] {
      var init := ins[..|ins| - 1];
      var last := ins[|ins| - 1];
      ConnectInputsTargets(n, o, init);
      assert ins == init + [last];
      forall t | t in n.tensorAt
        ensures ConnectInputs(n, o, ins).tensorAt[t].targets
                == n.tensorAt[t].targets + Copies(o, multiset(ins)[t])
      {
        var k := multiset(init)[t];
        if t == last {
          assert multiset(ins)[t] == k + 1;
          assert Copies(o, k) + [o] == Copies(o, k + 1);
          assert n.tensorAt[t].targets + Copies(o, k) + [o] == n.tensorAt[t].targets + Copies(o, k + 1);
        } else {
          assert multiset(ins)[t] == k;
        }
      }
    }
  }

  // ---------------------------------------------------------------------------------------
  // Connecting keeps the neighbour caches symmetric

  /** No listed operator names `o` as a neighbour. */
  ghost predicate Unnamed(n: Net, o: OpId) {
    forall a :: a in n.ops && a in n.opAt ==> o !in n.opAt[a].preds && o !in n.opAt[a].succs
  }

  lemma LinkSymmetric(n: Net, p: OpId, s: OpId)
    requires p in n.opAt && s in n.opAt && Symmetric(n)
    ensures Symmetric(Link(n, p, s))
  {
    var r := Link(n, p, s);
    assert r.ops == n.ops;
    forall a, b | a in r.ops && b in r.ops && a in r.opAt && b in r.opAt
      ensures b in r.opAt[a].succs <==> a in r.opAt[b].preds
    {
      assert b in r.opAt[a].succs <==> b in n.opAt[a].succs || (a == p && b == s);
      assert a in r.opAt[b].preds <==> a in n.opAt[b].preds || (a == p && b == s);
    }
  }

  lemma {:induction false} ConnectInputsSymmetric(n: Net, o: OpId, ins: seq<TensorId>)
    requires SourcesKnown(n) && AllKnown(n, ins) && o in n.opAt && Symmetric(n)
    ensures Symmetric(ConnectInputs(n, o, ins)) && ConnectInputs(n, o, ins).ops == n.ops
    decreases |ins|
  {
    if ins != [] {
      var m := ConnectInputs(n, o, ins[..|ins| - 1]);
      var t := ins[|ins| - 1];
      ConnectInputsSymmetric(n, o, ins[..|ins| - 1]);
      var m1 := AddTarget(m, t, o);
      assert Symmetric(m1);
      if m1.tensorAt[t].source.Some? {
        LinkSymmetric(m1, m1.tensorAt[t].source.value, o);
      }
    }
  }

  lemma {:induction false} LinkAllSymmetric(n: Net, p: OpId, succs: seq<OpId>)
    requires p in n.opAt && (forall s :: s in succs ==> s in n.opAt) && Symmetric(n)
    ensures Symmetric(LinkAll(n, p, succs)) && LinkAll(n, p, succs).ops == n.ops
    decreases |succs|
  {
    if succs != [] {
      LinkAllSymmetric(n, p, succs[..|succs| - 1]);
      LinkSymmetric(LinkAll(n, p, succs[..|succs| - 1]), p, succs[|succs| - 1]);
    }
  }

  lemma {:induction false} ConnectOutputsSymmetric(n: Net, o: OpId, outs: seq<TensorId>)
    requires TargetsKnown(n) && AllKnown(n, outs) && o in n.opAt && Symmetric(n)
    ensures Symmetric(ConnectOutputs(n, o, outs)) && ConnectOutputs(n, o, outs).ops == n.ops
    decreases |outs|
  {
    if outs != [] {
      var m := ConnectOutputs(n, o, outs[..|outs| - 1]);
      var t := outs[|outs| - 1];
      ConnectOutputsSymmetric(n, o, outs[..|outs| - 1]);
      var m1 := SetSource(m, t, o);
      assert Symmetric(m1);
      LinkAllSymmetric(m1, o, m1.tensorAt[t].targets);
    }
  }

  /**
   * `addOperatorAndConnect` records every edge it makes at both ends: when no listed operator
   * names the new `o`, symmetric neighbour caches stay symmetric.
   */
  lemma AddOperatorSymmetric(n: Net, o: OpId, kind: OpKind, ins: seq<TensorId>, outs: seq<TensorId>)
    requires Closed(n) && o !in n.opAt && AllKnown(n, ins) && AllKnown(n, outs)
    requires Symmetric(n) && Unnamed(n, o)
    ensures Symmetric(AddOperator(n, o, kind, ins, outs))
  {
    var n0 := Insert(n, o, kind, ins, outs);
    assert Symmetric(n0) by {
      forall a, b | a in n0.ops && b in n0.ops && a in n0.opAt && b in n0.opAt
        ensures b in n0.opAt[a].succs <==> a in n0.opAt[b].preds
      {
        if a != o && b != o {
          assert a in n.ops && b in n.ops;
        } else if a != o {
          assert a in n.ops;
        } else if b != o {
          assert b in n.ops;
        }
      }
    }
    ConnectInputsSymmetric(n0, o, ins);
    TargetsAfterInputs(n0, o, ins);
    ConnectOutputsSymmetric(ConnectInputs(n0, o, ins), o, outs);
  }

  /**
   * `addOperatorAndConnect` on the lists and records: the graph becomes unsorted and lists `o`
   * last, with its kind and tensors; every other record only gains neighbours and targets.
   */
  lemma AddOperatorRecords(n: Net, o: OpId, kind: OpKind, ins: seq<TensorId>, outs: seq<TensorId>)
    requires Closed(n) && o !in n.opAt && AllKnown(n, ins) && AllKnown(n, outs)
    ensures var r := AddOperator(n, o, kind, ins, outs);
            && !r.sorted && r.ops == n.ops + [o] && r.tensors == n.tensors
            && r.opAt.Keys == n.opAt.Keys + {o} && r.tensorAt.Keys == n.tensorAt.Keys
            && r.opAt[o].kind == kind && r.opAt[o].inputs == ins && r.opAt[o].outputs == outs
            && (forall a :: a in n.opAt ==>
                  && KeepsOp(n.opAt[a], r.opAt[a])
                  && r.opAt[a].preds <= n.opAt[a].preds + {o}
                  && r.opAt[a].succs <= n.opAt[a].succs + {o})
            && (forall t :: t in n.tensorAt ==>
                  && KeepsTensor(n.tensorAt[t], r.tensorAt[t])
                  && r.tensorAt[t].targets == n.tensorAt[t].targets + Copies(o, multiset(ins)[t])
                  && (t !in outs ==> r.tensorAt[t].source == n.tensorAt[t].source))
  {
    var n0 := Insert(n, o, kind, ins, outs);
    assert SourcesKnown(n0) && TargetsKnown(n0);
    ConnectBoth(n0, o, ins, outs);
    var n1 := ConnectInputs(n0, o, ins);
    ConnectInputsNear(n0, o, ins);
    ConnectOutputsNear(n1, o, outs);
    ConnectInputsTargets(n0, o, ins);
    ConnectOutputsWires(n1, o, outs);
  }

  /**
   * `addOperatorAndConnect` on the input side: `o` is a target of each input and follows that
   * input's source.
   */
  lemma AddOperatorWiresInputs(n: Net, o: OpId, kind: OpKind, ins: seq<TensorId>, outs: seq<TensorId>)
    requires Closed(n) && o !in n.opAt && AllKnown(n, ins) && AllKnown(n, outs)
    ensures var r := AddOperator(n, o, kind, ins, outs);
            forall t :: t in ins ==>
              && o in r.tensorAt[t].targets
              && (n.tensorAt[t].source.Some? ==>
                    var s := n.tensorAt[t].source.value;
                    s in r.opAt[o].preds && o in r.opAt[s].succs)
  {
    var n0 := Insert(n, o, kind, ins, outs);
    assert SourcesKnown(n0) && TargetsKnown(n0);
    ConnectBoth(n0, o, ins, outs);
  }

  /**
   * `addOperatorAndConnect` on the output side: `o` is the source of each output and precedes
   * every target the output had.
   */
  lemma AddOperatorWiresOutputs(n: Net, o: OpId, kind: OpKind, ins: seq<TensorId>, outs: seq<TensorId>)
    requires Closed(n) && o !in n.opAt && AllKnown(n, ins) && AllKnown(n, outs)
    ensures var r := AddOperator(n, o, kind, ins, outs);
            forall t :: t in outs ==>
              && r.tensorAt[t].source == Some(o)
              && forall x :: x in n.tensorAt[t].targets ==> x in r.opAt[o].succs && o in r.opAt[x].preds
  {
    var n0 := Insert(n, o, kind, ins, outs);
    assert SourcesKnown(n0) && TargetsKnown(n0);
    var n1 := ConnectInputs(n0, o, ins);
    ConnectInputsWires(n0, o, ins);
    TargetsAfterInputs(n0, o, ins);
    ConnectOutputsWires(n1, o, outs);
    forall t, x | t in outs && x in n.tensorAt[t].targets ensures x in n1.tensorAt[t].targets {
      PrefixHas(n0.tensorAt[t].targets, n1.tensorAt[t].targets, x);
    }
  }
}
