/**
 * Shape inference and memory planning of a graph, `GraphObj::shape_infer` and
 * `GraphObj::dataMalloc`, as functions on the state value. An `IT_ASSERT` that fails is `None`.
 */
module Planning {
  import opened Common
  import opened Net
  import opened Arena
  import opened Topo
  import MatmulRule = Matmul
  import ConcatRule = Concat

  /**
   * The shape rules this model does not define: `infer_broadcast`, used by MatMul for its batch
   * axes, and `inferShape` of every operator kind other than MatMul and Concat.
   */
  datatype Rules = Rules(
    broadcast: (Shape, Shape) -> Shape,
    other: (OpKind, seq<Shape>) -> Option<seq<Shape>>)

  /** The shapes of a list of tensors. */
  function Shapes(n: Net, ts: seq<TensorId>): (r: seq<Shape>)
    requires forall t :: t in ts ==> t in n.tensorAt
    ensures |r| == |ts| && forall i :: 0 <= i < |ts| ==> r[i] == n.tensorAt[ts[i]].shape
  {
    seq(|ts|, i requires 0 <= i < |ts| => n.tensorAt[ts[i]].shape)
  }

  /**
   * `op->inferShape()` on the current shapes of the operator's inputs. A MatMul is built with two
   * inputs and a Concat with at least one, its axis already normalised; a record that breaks
   * this fails, except a single-input Concat, whose shape loop never reads the axis.
   */
  function InferOp(n: Net, o: OpId, rules: Rules): Option<seq<Shape>>
    requires Closed(n) && o in n.opAt
  {
    var x := n.opAt[o];
    var ins := Shapes(n, x.inputs);
    match x.kind
    case MatMul(transA, transB) =>
      if |ins| != 2 then None else MatmulRule.InferShape(ins[0], ins[1], transA, transB, rules.broadcast)
    case Concat(axis) =>
      if |ins| == 0 then None
      else if axis < |ins[0]| then ConcatRule.ConcatShape(ins, axis)
      else if |ins| == 1 then Some([ins[0]])
      else None
    case _ => rules.other(x.kind, ins)
  }

  // ---------------------------------------------------------------------------------------
  // shape_infer

  /** Only tensor shapes differ between `n` and `r`. */
  ghost predicate OnlyShapes(n: Net, r: Net) {
    && r.tensors == n.tensors && r.ops == n.ops && r.sorted == n.sorted && r.opAt == n.opAt
    && r.tensorAt.Keys == n.tensorAt.Keys
    && forall t :: t in n.tensorAt ==> r.tensorAt[t] == n.tensorAt[t].(shape := r.tensorAt[t].shape)
  }

  lemma OnlyShapesTrans(a: Net, b: Net, c: Net)
    requires OnlyShapes(a, b) && OnlyShapes(b, c)
    ensures OnlyShapes(a, c)
  {
    forall t | t in a.tensorAt ensures c.tensorAt[t] == a.tensorAt[t].(shape := c.tensorAt[t].shape) {
      assert b.tensorAt[t] == a.tensorAt[t].(shape := b.tensorAt[t].shape);
    }
  }

  /** Changing shapes keeps the state closed and keeps every fuid. */
  lemma OnlyShapesKeepClosed(n: Net, r: Net)
    requires Closed(n) && OnlyShapes(n, r)
    ensures Closed(r) && (forall t :: t in n.tensorAt ==> r.tensorAt[t].fuid == n.tensorAt[t].fuid)
    ensures DistinctFuids(n) ==> DistinctFuids(r)
  {
    forall t | t in n.tensorAt ensures r.tensorAt[t].source == n.tensorAt[t].source {
      assert r.tensorAt[t] == n.tensorAt[t].(shape := r.tensorAt[t].shape);
    }
    forall o | o in r.opAt ensures OpClosed(r, r.opAt[o]) {
      assert OpClosed(n, n.opAt[o]);
    }
  }

  /** `tensor->setShape(s)`. */
  function SetShape(n: Net, t: TensorId, s: Shape): (r: Net)
    requires t in n.tensorAt
    ensures OnlyShapes(n, r) && r.tensorAt[t].shape == s
  {
    n.(tensorAt := n.tensorAt[t := n.tensorAt[t].(shape := s)])
  }

  /** What `getTensor` finds is a listed tensor. */
  lemma GetTensorListed(n: Net, fuid: int)
    requires Closed(n)
    ensures GetTensor(n, fuid).Some? ==> GetTensor(n, fuid).value in n.tensors
  {
    GetTensorFromFinds(n, fuid, 0);
  }

  /**
   * The write-back loop for one operator, from output `j` on: where the inferred shape differs
   * from the output's shape, the listed tensor with the output's fuid gets it. No listed tensor
   * with that fuid is a null dereference in the source, and fails here.
   */
  function WriteShapes(n: Net, outs: seq<TensorId>, shapes: seq<Shape>, j: nat): (r: Option<Net>)
    requires Closed(n) && |shapes| == |outs| && j <= |outs| && forall t :: t in outs ==> t in n.tensorAt
    ensures r.Some? ==> OnlyShapes(n, r.value)
    decreases |outs| - j
  {
    if j == |outs| then Some(n)
    else if shapes[j] == n.tensorAt[outs[j]].shape then WriteShapes(n, outs, shapes, j + 1)
    else
      match GetTensor(n, n.tensorAt[outs[j]].fuid)
      case None => None
      case Some(t) =>
        GetTensorListed(n, n.tensorAt[outs[j]].fuid);
        var n' := SetShape(n, t, shapes[j]);
        OnlyShapesKeepClosed(n, n');
        var r := WriteShapes(n', outs, shapes, j + 1);
        if r.Some? then OnlyShapesTrans(n, n', r.value); r else r
  }

  /**
   * One operator's turn of `shape_infer`: its shapes are inferred from the current shapes, a
   * failed inference or a result of the wrong arity fails, and the outputs are written back.
   */
  function InferTurn(n: Net, o: OpId, rules: Rules): (r: Option<Net>)
    requires Closed(n) && o in n.opAt
    ensures r.Some? ==> OnlyShapes(n, r.value)
  {
    var x := n.opAt[o];
    assert OpClosed(n, x);
    match InferOp(n, o, rules)
    case None => None
    case Some(shapes) =>
      if |shapes| != |x.outputs| then None else WriteShapes(n, x.outputs, shapes, 0)
  }

  /** `shape_infer` from the `k`-th listed operator on: one turn per operator, in list order. */
  function ShapeInferFrom(n: Net, k: nat, rules: Rules): (r: Option<Net>)
    requires Closed(n) && k <= |n.ops|
    ensures r.Some? ==> OnlyShapes(n, r.value)
    decreases |n.ops| - k
  {
    if k == |n.ops| then Some(n)
    else
      match InferTurn(n, n.ops[k], rules)
      case None => None
      case Some(n') =>
        OnlyShapesKeepClosed(n, n');
        var r := ShapeInferFrom(n', k + 1, rules);
        if r.Some? then OnlyShapesTrans(n, n', r.value); r else r
  }

  function ShapeInfer(n: Net, rules: Rules): (r: Option<Net>)
    requires Closed(n)
    ensures r.Some? ==> OnlyShapes(n, r.value)
  {
    ShapeInferFrom(n, 0, rules)
  }

  /** Outputs whose shape already is the inferred one are not written. */
  lemma {:induction false} WriteShapesUnchanged(n: Net, outs: seq<TensorId>, shapes: seq<Shape>, j: nat)
    requires Closed(n) && |shapes| == |outs| && j <= |outs| && forall t :: t in outs ==> t in n.tensorAt
    requires forall i :: j <= i < |outs| ==> shapes[i] == n.tensorAt[outs[i]].shape
    ensures WriteShapes(n, outs, shapes, j) == Some(n)
    decreases |outs| - j
  {
    if j < |outs| {
      WriteShapesUnchanged(n, outs, shapes, j + 1);
    }
  }

  /**
   * With distinct fuids and listed outputs, none twice, the write-back succeeds, gives every
   * output from `j` on its inferred shape, and leaves every other tensor alone.
   */
  lemma {:induction false} WriteShapesWrites(n: Net, outs: seq<TensorId>, shapes: seq<Shape>, j: nat)
    requires Closed(n) && DistinctFuids(n) && |shapes| == |outs| && j <= |outs|
    requires NoDups(outs) && forall t :: t in outs ==> t in n.tensors
    ensures var r := WriteShapes(n, outs, shapes, j);
            && r.Some?
            && (forall i :: j <= i < |outs| ==> r.value.tensorAt[outs[i]].shape == shapes[i])
            && (forall t :: t in n.tensorAt && t !in outs[j..] ==> r.value.tensorAt[t] == n.tensorAt[t])
    decreases |outs| - j
  {
    if j < |outs| {
      var o := outs[j];
      TailFacts(outs, j);
      var n' := WriteShapesStep(n, outs, shapes, j);
      WriteShapesWrites(n', outs, shapes, j + 1);
      var r := WriteShapes(n', outs, shapes, j + 1).value;
      assert r.tensorAt[o] == n'.tensorAt[o];
    }
  }

  /** One turn of the write-back loop under the conditions of `WriteShapesWrites`. */
  lemma WriteShapesStep(n: Net, outs: seq<TensorId>, shapes: seq<Shape>, j: nat) returns (n': Net)
    requires Closed(n) && DistinctFuids(n) && |shapes| == |outs| && j < |outs|
    requires forall t :: t in outs ==> t in n.tensors
    ensures Closed(n') && DistinctFuids(n') && n'.tensors == n.tensors && n'.tensorAt.Keys == n.tensorAt.Keys
    ensures n'.tensorAt[outs[j]].shape == shapes[j]
    ensures forall t :: t in n.tensorAt && t != outs[j] ==> n'.tensorAt[t] == n.tensorAt[t]
    ensures WriteShapes(n, outs, shapes, j) == WriteShapes(n', outs, shapes, j + 1)
  {
    var o := outs[j];
    n' := if shapes[j] == n.tensorAt[o].shape then n else SetShape(n, o, shapes[j]);
    if shapes[j] != n.tensorAt[o].shape {
      var k :| 0 <= k < |n.tensors| && n.tensors[k] == o;
      GetTensorOwnFuid(n, k);
      OnlyShapesKeepClosed(n, n');
    }
  }

  /** Past position `j` of a list without repeats, its entry `j` does not occur again. */
  lemma TailFacts<T>(s: seq<T>, j: nat)
    requires NoDups(s) && j < |s|
    ensures s[j] !in s[j + 1..]
    ensures forall t :: t !in s[j..] ==> t != s[j] && t !in s[j + 1..]
  {
    assert s[j..] == [s[j]] + s[j + 1..];
    forall i | j + 1 <= i < |s| ensures s[i] != s[j] { }
  }

  /**
   * When every listed operator's inferred shapes already are its outputs' shapes, `shape_infer`
   * succeeds and changes nothing.
   */
  lemma {:induction false} ShapeInferSettled(n: Net, k: nat, rules: Rules)
    requires Closed(n) && k <= |n.ops|
    requires forall j :: k <= j < |n.ops| ==>
               InferOp(n, n.ops[j], rules) == Some(Shapes(n, n.opAt[n.ops[j]].outputs))
    ensures ShapeInferFrom(n, k, rules) == Some(n)
    decreases |n.ops| - k
  {
    if k < |n.ops| {
      var x := n.opAt[n.ops[k]];
      WriteShapesUnchanged(n, x.outputs, Shapes(n, x.outputs), 0);
      ShapeInferSettled(n, k + 1, rules);
    }
  }

  // ---------------------------------------------------------------------------------------
  // What a whole run of shape_infer leaves

  /** Every listed operator's outputs are listed tensors, none twice. */
  ghost predicate OutputsListed(n: Net) {
    forall o :: o in n.ops && o in n.opAt ==>
      NoDups(n.opAt[o].outputs) && forall t :: t in n.opAt[o].outputs ==> t in n.tensors
  }

  /** Every write-back of `shape_infer` finds its tensor: distinct fuids and listed outputs. */
  ghost predicate WriteReady(n: Net) {
    Closed(n) && DistinctFuids(n) && OutputsListed(n)
  }

  /**
   * The graphs `shape_infer` is meant for: besides `WriteReady`, `ops` without repeats and in
   * input order, and every source the single producer of its tensor.
   */
  ghost predicate InferReady(n: Net) {
    WriteReady(n) && NoDups(n.ops) && InputsFirst(n, n.ops) && SourcesMatch(n)
  }

  /** Inference fails at `o`'s turn: no result, or a result of the wrong arity. */
  ghost predicate InferFails(n: Net, o: OpId, rules: Rules)
    requires Closed(n) && o in n.opAt
  {
    var ans := InferOp(n, o, rules);
    ans.None? || |ans.value| != |n.opAt[o].outputs|
  }

  /** Writing shapes keeps a graph fit for `shape_infer`. */
  lemma OnlyShapesKeepReady(n: Net, r: Net)
    requires WriteReady(n) && OnlyShapes(n, r)
    ensures WriteReady(r) && (InferReady(n) ==> InferReady(r))
  {
    OnlyShapesKeepClosed(n, r);
    forall t | t in n.tensorAt ensures r.tensorAt[t].source == n.tensorAt[t].source {
      assert r.tensorAt[t] == n.tensorAt[t].(shape := r.tensorAt[t].shape);
    }
  }

  /** A turn whose inference fails fails. */
  lemma InferTurnFails(n: Net, o: OpId, rules: Rules)
    requires Closed(n) && o in n.opAt && InferFails(n, o, rules)
    ensures InferTurn(n, o, rules).None?
  {
  }

  /**
   * A listed operator's turn whose inference succeeds succeeds: its outputs take the inferred
   * shapes and no other tensor changes.
   */
  lemma InferTurnWrites(n: Net, o: OpId, rules: Rules)
    requires WriteReady(n) && o in n.ops && o in n.opAt && !InferFails(n, o, rules)
    ensures InferTurn(n, o, rules).Some?
    ensures var r, x := InferTurn(n, o, rules).value, n.opAt[o];
            && InferOp(n, o, rules) == Some(Shapes(r, x.outputs))
            && forall t :: t in n.tensorAt && t !in x.outputs ==> r.tensorAt[t] == n.tensorAt[t]
  {
    var x := n.opAt[o];
    var shapes := InferOp(n, o, rules).value;
    WriteShapesWrites(n, x.outputs, shapes, 0);
    assert x.outputs[0..] == x.outputs;
    var r := WriteShapes(n, x.outputs, shapes, 0).value;
    assert Shapes(r, x.outputs) == shapes;
  }

  /** The operator at position `i` reads no output of the operator at position `j`, for `i <= j`. */
  lemma ReadsNoLaterOutput(n: Net, i: nat, j: nat, t: TensorId)
    requires InferReady(n) && i <= j < |n.ops| && n.ops[j] in n.opAt && t in n.opAt[n.ops[j]].outputs
    ensures n.ops[i] in n.opAt && t !in n.opAt[n.ops[i]].inputs
  {
    assert n.ops[i] in n.ops && n.ops[j] in n.ops;
    assert OpClosed(n, n.opAt[n.ops[j]]);
    assert n.tensorAt[t].source == Some(n.ops[j]);
  }

  /** Operators at two positions share no output. */
  lemma OutputsApart(n: Net, i: nat, j: nat, t: TensorId)
    requires InferReady(n) && i < |n.ops| && j < |n.ops| && n.ops[i] in n.opAt && n.ops[j] in n.opAt
    requires t in n.opAt[n.ops[i]].outputs && t in n.opAt[n.ops[j]].outputs
    ensures i == j
  {
    assert n.ops[i] in n.ops && n.ops[j] in n.ops;
    assert OpClosed(n, n.opAt[n.ops[i]]);
    assert n.tensorAt[t].source == Some(n.ops[i]) && n.tensorAt[t].source == Some(n.ops[j]);
  }

  /** Inference looks only at the shapes of the operator's inputs. */
  lemma InferOpReadsInputs(n: Net, m: Net, o: OpId, rules: Rules)
    requires Closed(n) && Closed(m) && o in n.opAt && m.opAt == n.opAt
    requires forall t :: t in n.opAt[o].inputs ==> m.tensorAt[t].shape == n.tensorAt[t].shape
    ensures InferOp(m, o, rules) == InferOp(n, o, rules)
  {
    assert Shapes(m, n.opAt[o].inputs) == Shapes(n, n.opAt[o].inputs);
  }

  /** The first `k` listed operators already infer exactly their outputs' shapes. */
  ghost predicate SettledUpTo(n: Net, k: nat, rules: Rules)
    requires Closed(n) && k <= |n.ops|
  {
    forall i :: 0 <= i < k ==> InferOp(n, n.ops[i], rules) == Some(Shapes(n, n.opAt[n.ops[i]].outputs))
  }

  /** A successful turn of the `k`-th operator settles it and unsettles none before it. */
  lemma TurnKeepsSettled(n: Net, k: nat, rules: Rules) returns (m: Net)
    requires InferReady(n) && k < |n.ops| && SettledUpTo(n, k, rules)
    requires n.ops[k] in n.opAt && InferTurn(n, n.ops[k], rules).Some?
    ensures m == InferTurn(n, n.ops[k], rules).value
    ensures InferReady(m) && SettledUpTo(m, k + 1, rules)
  {
    var o := n.ops[k];
    m := InferTurn(n, o, rules).value;
    assert o in n.ops;
    InferTurnWrites(n, o, rules);
    OnlyShapesKeepReady(n, m);
    var outs := n.opAt[o].outputs;
    forall i | 0 <= i < k + 1
      ensures InferOp(m, m.ops[i], rules) == Some(Shapes(m, m.opAt[m.ops[i]].outputs))
    {
      var a := n.ops[i];
      assert a in n.ops;
      forall t | t in n.opAt[a].inputs ensures m.tensorAt[t].shape == n.tensorAt[t].shape {
        if t in outs {
          ReadsNoLaterOutput(n, i, k, t);
        }
        assert OpClosed(n, n.opAt[a]);
      }
      InferOpReadsInputs(n, m, a, rules);
      if i < k {
        forall t | t in n.opAt[a].outputs ensures m.tensorAt[t] == n.tensorAt[t] {
          if t in outs {
            OutputsApart(n, i, k, t);
          }
          assert OpClosed(n, n.opAt[a]);
        }
        assert Shapes(m, n.opAt[a].outputs) == Shapes(n, n.opAt[a].outputs);
      }
    }
  }

  lemma {:induction false} ShapeInferFromSettles(n: Net, k: nat, rules: Rules)
    requires InferReady(n) && k <= |n.ops| && SettledUpTo(n, k, rules) && ShapeInferFrom(n, k, rules).Some?
    ensures var r := ShapeInferFrom(n, k, rules).value;
            InferReady(r) && SettledUpTo(r, |r.ops|, rules)
    decreases |n.ops| - k
  {
    if k < |n.ops| {
      assert n.ops[k] in n.ops;
      var m := TurnKeepsSettled(n, k, rules);
      ShapeInferFromSettles(m, k + 1, rules);
    }
  }

  /**
   * On a graph in input order with single producers, distinct fuids and listed outputs, a
   * successful `shape_infer` leaves every listed operator's outputs with exactly the shapes its
   * inference gives from the final shapes of its inputs; running it again changes nothing.
   */
  lemma ShapeInferSettles(n: Net, rules: Rules)
    requires InferReady(n) && ShapeInfer(n, rules).Some?
    ensures var r := ShapeInfer(n, rules).value;
            && (forall o :: o in r.ops ==> o in r.opAt && InferOp(r, o, rules) == Some(Shapes(r, r.opAt[o].outputs)))
            && ShapeInfer(r, rules) == Some(r)
  {
    ShapeInferFromSettles(n, 0, rules);
    var r := ShapeInfer(n, rules).value;
    forall o | o in r.ops ensures o in r.opAt && InferOp(r, o, rules) == Some(Shapes(r, r.opAt[o].outputs)) {
      var i :| 0 <= i < |r.ops| && r.ops[i] == o;
    }
    ShapeInferSettled(r, 0, rules);
  }

  /**
   * The state `shape_infer` reaches from `n` at the `k`-th turn by the start of the `j`-th: with
   * `n` the start and `k` zero, the state the `j`-th turn starts from.
   */
  function InferUpTo(n: Net, k: nat, j: nat, rules: Rules): (r: Option<Net>)
    requires Closed(n) && k <= j <= |n.ops|
    ensures r.Some? ==> OnlyShapes(n, r.value)
    decreases j - k
  {
    if k == j then Some(n)
    else
      match InferTurn(n, n.ops[k], rules)
      case None => None
      case Some(n') =>
        OnlyShapesKeepClosed(n, n');
        var r := InferUpTo(n', k + 1, j, rules);
        if r.Some? then OnlyShapesTrans(n, n', r.value); r else r
  }

  /** A failed run has a turn, reached from where the run started, whose inference failed. */
  lemma {:induction false} FailedTurn(n: Net, k: nat, rules: Rules) returns (j: nat)
    requires WriteReady(n) && k <= |n.ops| && ShapeInferFrom(n, k, rules).None?
    ensures k <= j < |n.ops| && InferUpTo(n, k, j, rules).Some?
    ensures InferFails(InferUpTo(n, k, j, rules).value, n.ops[j], rules)
    decreases |n.ops| - k
  {
    var o := n.ops[k];
    assert o in n.ops;
    if InferFails(n, o, rules) {
      j := k;
    } else {
      InferTurnWrites(n, o, rules);
      var n' := InferTurn(n, o, rules).value;
      OnlyShapesKeepReady(n, n');
      j := FailedTurn(n', k + 1, rules);
    }
  }

  /** A turn whose inference fails, once reached, fails the run. */
  lemma {:induction false} FailedTurnFails(n: Net, k: nat, j: nat, rules: Rules)
    requires Closed(n) && k <= j < |n.ops| && InferUpTo(n, k, j, rules).Some?
    requires InferFails(InferUpTo(n, k, j, rules).value, n.ops[j], rules)
    ensures ShapeInferFrom(n, k, rules).None?
    decreases j - k
  {
    if k == j {
      InferTurnFails(n, n.ops[k], rules);
    } else {
      var n' := InferTurn(n, n.ops[k], rules).value;
      OnlyShapesKeepClosed(n, n');
      FailedTurnFails(n', k + 1, j, rules);
    }
  }

  /**
   * On a graph with distinct fuids and listed outputs, `shape_infer` fails exactly when some
   * listed operator's inference fails, or gives the wrong number of shapes, at its turn: the
   * write-back never fails.
   */
  lemma ShapeInferFails(n: Net, rules: Rules)
    requires WriteReady(n)
    ensures ShapeInfer(n, rules).None? <==>
              exists j :: 0 <= j < |n.ops| && InferUpTo(n, 0, j, rules).Some?
                          && InferFails(InferUpTo(n, 0, j, rules).value, n.ops[j], rules)
  {
    if ShapeInfer(n, rules).None? {
      var j := FailedTurn(n, 0, rules);
    }
    forall j | 0 <= j < |n.ops| && InferUpTo(n, 0, j, rules).Some?
                && InferFails(InferUpTo(n, 0, j, rules).value, n.ops[j], rules)
      ensures ShapeInfer(n, rules).None?
    {
      FailedTurnFails(n, 0, j, rules);
    }
  }

  // ---------------------------------------------------------------------------------------
  // dataMalloc

  /** The allocation loop: one `alloc` per size, in order; the first failed assertion fails it. */
  function AllocAll(a: Arena, sizes: seq<nat>): (r: Option<(Arena, seq<nat>)>)
    ensures r.Some? ==> |r.value.1| == |sizes|
  {
    if sizes == [] then Some((a, []))
    else
      match AllocAll(a, sizes[..|sizes| - 1])
      case None => None
      case Some((a', offs)) =>
        match AllocStep(a', sizes[|sizes| - 1])
        case None => None
        case Some((a'', off)) => Some((a'', offs + [off]))
  }

  /** One more turn of the allocation loop, seen from the prefix of the sizes it has allocated. */
  lemma AllocAllNext(a: Arena, sizes: seq<nat>, i: nat)
    requires i < |sizes|
    ensures AllocAll(a, sizes[..i + 1]) ==
              match AllocAll(a, sizes[..i])
              case None => None
              case Some((a', offs)) =>
                match AllocStep(a', sizes[i])
                case None => None
                case Some((a'', off)) => Some((a'', offs + [off]))
  {
    assert sizes[..i + 1][..i] == sizes[..i];
  }

  /** Once the loop has failed on a prefix of the sizes, it fails on all of them. */
  lemma {:induction false} AllocAllPrefixFails(a: Arena, sizes: seq<nat>, i: nat)
    requires i <= |sizes| && AllocAll(a, sizes[..i]).None?
    ensures AllocAll(a, sizes).None?
    decreases |sizes| - i
  {
    if i < |sizes| {
      AllocAllNext(a, sizes, i);
      AllocAllPrefixFails(a, sizes, i + 1);
    } else {
      assert sizes[..i] == sizes;
    }
  }

  /**
   * The loop fails exactly when some size is zero, or when the arena is already realised and
   * there is anything to allocate.
   */
  lemma {:induction false} AllocAllFails(a: Arena, sizes: seq<nat>)
    ensures AllocAll(a, sizes).None? <==>
              (sizes != [] && a.realised) || exists i :: 0 <= i < |sizes| && sizes[i] == 0
    ensures AllocAll(a, sizes).Some? && sizes != [] ==> !AllocAll(a, sizes).value.0.realised
    decreases |sizes|
  {
    if sizes != [] {
      var init := sizes[..|sizes| - 1];
      AllocAllFails(a, init);
      if exists i :: 0 <= i < |init| && init[i] == 0 {
        var i :| 0 <= i < |init| && init[i] == 0;
        assert sizes[i] == 0;
      }
      if exists i :: 0 <= i < |sizes| && sizes[i] == 0 {
        var i :| 0 <= i < |sizes| && sizes[i] == 0;
        if i < |init| {
          assert init[i] == 0;
        }
      }
    }
  }

  /** The blocks handed out: offset `offs[i]`, holding the aligned size of `sizes[i]`. */
  function Placed(offs: seq<nat>, sizes: seq<nat>): (r: seq<Block>)
    requires |offs| == |sizes|
    ensures |r| == |sizes| && forall i :: 0 <= i < |r| ==> r[i] == Block(offs[i], AlignedSize(sizes[i]))
  {
    seq(|sizes|, i requires 0 <= i < |sizes| => Block(offs[i], AlignedSize(sizes[i])))
  }

  /**
   * Under correct use of the arena, every planned block joins the live ones: aligned, inside the
   * arena, and disjoint from each other, from every earlier allocation and from every free block.
   */
  lemma {:induction false} AllocAllTracks(a: Arena, live: seq<Block>, sizes: seq<nat>)
    requires Tracks(a, live) && forall i :: 0 <= i < |sizes| ==> sizes[i] > 0
    ensures AllocAll(a, sizes).Some?
    ensures var (a', offs) := AllocAll(a, sizes).value; Tracks(a', live + Placed(offs, sizes))
    decreases |sizes|
  {
    if sizes != [] {
      AllocAllTracks(a, live, sizes[..|sizes| - 1]);
      AllocLastTracks(a, live, sizes);
    } else {
      assert live + Placed([], sizes) == live;
    }
  }

  /** The last turn of the allocation loop keeps what the earlier turns established. */
  lemma AllocLastTracks(a: Arena, live: seq<Block>, sizes: seq<nat>)
    requires sizes != [] && sizes[|sizes| - 1] > 0
    requires AllocAll(a, sizes[..|sizes| - 1]).Some?
    requires var (a1, offs) := AllocAll(a, sizes[..|sizes| - 1]).value;
             Tracks(a1, live + Placed(offs, sizes[..|sizes| - 1]))
    ensures AllocAll(a, sizes).Some?
    ensures var (a', offs) := AllocAll(a, sizes).value; Tracks(a', live + Placed(offs, sizes))
  {
    var init, last := sizes[..|sizes| - 1], sizes[|sizes| - 1];
    var (a1, offs) := AllocAll(a, init).value;
    AllocKeepsTracks(a1, live + Placed(offs, init), last);
    var (a2, off) := AllocStep(a1, last).value;
    PlacedSnoc(live, offs, off, sizes);
    TracksSame(a2, live + Placed(offs, init) + [Block(off, AlignedSize(last))], live + Placed(offs + [off], sizes));
  }

  lemma PlacedSnoc(live: seq<Block>, offs: seq<nat>, off: nat, sizes: seq<nat>)
    requires |sizes| == |offs| + 1
    ensures live + Placed(offs, sizes[..|offs|]) + [Block(off, AlignedSize(sizes[|offs|]))] == live + Placed(offs + [off], sizes)
  {
  }

  lemma TracksSame(a: Arena, l1: seq<Block>, l2: seq<Block>)
    requires Tracks(a, l1) && l1 == l2
    ensures Tracks(a, l2)
  {
  }

  /** The aligned sizes, added up. */
  function AlignedTotal(sizes: seq<nat>): nat {
    if sizes == [] then 0 else AlignedTotal(sizes[..|sizes| - 1]) + AlignedSize(sizes[|sizes| - 1])
  }

  /**
   * From a fresh arena nothing is ever free, so each block is placed right after the one before:
   * the offsets are the prefix sums of the aligned sizes, and the arena is exactly their total.
   */
  lemma {:induction false} FreshOffsets(sizes: seq<nat>)
    requires forall i :: 0 <= i < |sizes| ==> sizes[i] > 0
    ensures AllocAll(Empty, sizes).Some?
    ensures var (a, offs) := AllocAll(Empty, sizes).value;
            && a == Arena(AlignedTotal(sizes), AlignedTotal(sizes), false, [])
            && forall i :: 0 <= i < |sizes| ==> offs[i] == AlignedTotal(sizes[..i])
    decreases |sizes|
  {
    if sizes != [] {
      var init := sizes[..|sizes| - 1];
      FreshOffsets(init);
      var (a, offs) := AllocAll(Empty, init).value;
      assert FirstFit(a.free, AlignedSize(sizes[|sizes| - 1])).None?;
      var offs' := AllocAll(Empty, sizes).value.1;
      assert offs' == offs + [AlignedTotal(init)];
      forall i | 0 <= i < |sizes| ensures offs'[i] == AlignedTotal(sizes[..i]) {
        if i < |init| {
          assert sizes[..i] == init[..i];
        } else {
          assert sizes[..i] == init;
        }
      }
    }
  }

  /** The byte sizes of the listed tensors; `bytes` stands for `getBytes`. */
  function Sizes(n: Net, bytes: Tensor -> nat): (r: seq<nat>)
    requires forall t :: t in n.tensors ==> t in n.tensorAt
    ensures |r| == |n.tensors| && forall i :: 0 <= i < |r| ==> r[i] == bytes(n.tensorAt[n.tensors[i]])
  {
    seq(|n.tensors|, i requires 0 <= i < |n.tensors| => bytes(n.tensorAt[n.tensors[i]]))
  }

  /** `tensorOffsets`: the offset recorded for each tensor; a later entry for a tensor overwrites. */
  function OffsetMap(ts: seq<TensorId>, offs: seq<nat>): (r: map<TensorId, nat>)
    requires |ts| == |offs|
    ensures forall t :: t in ts ==> t in r
  {
    if ts == [] then map[]
    else OffsetMap(ts[..|ts| - 1], offs[..|offs| - 1])[ts[|ts| - 1] := offs[|offs| - 1]]
  }

  /** With no tensor twice, each tensor's recorded offset is the one its own `alloc` returned. */
  lemma {:induction false} OffsetMapAt(ts: seq<TensorId>, offs: seq<nat>)
    requires |ts| == |offs| && NoDups(ts)
    ensures forall i :: 0 <= i < |ts| ==> OffsetMap(ts, offs)[ts[i]] == offs[i]
    decreases |ts|
  {
    if ts != [] {
      var init := ts[..|ts| - 1];
      assert NoDups(init);
      OffsetMapAt(init, offs[..|offs| - 1]);
      forall i | 0 <= i < |ts| ensures OffsetMap(ts, offs)[ts[i]] == offs[i] {
        if i < |init| {
          assert ts[i] == init[i] && ts[i] != ts[|ts| - 1];
        }
      }
    }
  }

  /** One more entry of the offset map, seen from the prefix of the tensors it has recorded. */
  lemma OffsetMapNext(ts: seq<TensorId>, offs: seq<nat>, i: nat, off: nat)
    requires i < |ts| && |offs| == i
    ensures OffsetMap(ts[..i + 1], offs + [off]) == OffsetMap(ts[..i], offs)[ts[i] := off]
  {
    assert ts[..i + 1][..i] == ts[..i];
    assert (offs + [off])[..i] == offs;
  }

  /** Only the bound storage of tensors differs between `n` and `r`. */
  ghost predicate OnlyBlobs(n: Net, r: Net) {
    && r.tensors == n.tensors && r.ops == n.ops && r.sorted == n.sorted && r.opAt == n.opAt
    && r.tensorAt.Keys == n.tensorAt.Keys
    && forall t :: t in n.tensorAt ==> r.tensorAt[t] == n.tensorAt[t].(blob := r.tensorAt[t].blob)
  }

  /** Binding storage keeps the state closed. */
  lemma OnlyBlobsKeepClosed(n: Net, r: Net)
    requires Closed(n) && OnlyBlobs(n, r)
    ensures Closed(r)
  {
    forall t | t in n.tensorAt ensures r.tensorAt[t].source == n.tensorAt[t].source {
      assert r.tensorAt[t] == n.tensorAt[t].(blob := r.tensorAt[t].blob);
    }
    forall o | o in r.opAt ensures OpClosed(r, r.opAt[o]) {
      assert OpClosed(n, n.opAt[o]);
    }
  }

  /** The binding loop: each tensor of `ts` gets the storage at `ptr` plus its recorded offset. */
  function Bind(n: Net, ts: seq<TensorId>, offsets: map<TensorId, nat>, ptr: int): (r: Net)
    requires forall t :: t in ts ==> t in n.tensorAt && t in offsets
    ensures r.tensors == n.tensors && r.ops == n.ops && r.opAt == n.opAt && r.tensorAt.Keys == n.tensorAt.Keys
  {
    if ts == [] then n
    else
      var m := Bind(n, ts[..|ts| - 1], offsets, ptr);
      var t := ts[|ts| - 1];
      m.(tensorAt := m.tensorAt[t := m.tensorAt[t].(blob := Some(ptr + offsets[t]))])
  }

  /** Binding changes the storage of tensors and nothing else. */
  lemma {:induction false} BindOnlyBlobs(n: Net, ts: seq<TensorId>, offsets: map<TensorId, nat>, ptr: int)
    requires forall t :: t in ts ==> t in n.tensorAt && t in offsets
    ensures OnlyBlobs(n, Bind(n, ts, offsets, ptr))
    decreases |ts|
  {
    if ts != [] {
      BindOnlyBlobs(n, ts[..|ts| - 1], offsets, ptr);
    }
  }

  /** One more turn of the binding loop, from the state `m` the prefix of `ts` before `t` left. */
  lemma BindNext(n: Net, ts: seq<TensorId>, offsets: map<TensorId, nat>, ptr: int, i: nat, m: Net, t: TensorId)
    requires i < |ts| && t == ts[i] && forall t :: t in ts ==> t in n.tensorAt && t in offsets
    requires m == Bind(n, ts[..i], offsets, ptr)
    ensures t in m.tensorAt && t in offsets
    ensures Bind(n, ts[..i + 1], offsets, ptr)
              == m.(tensorAt := m.tensorAt[t := m.tensorAt[t].(blob := Some(ptr + offsets[t]))])
  {
    assert ts[..i + 1][..i] == ts[..i];
  }

  /** After binding, every tensor of `ts` has the storage at `ptr` plus its offset. */
  lemma {:induction false} BindSets(n: Net, ts: seq<TensorId>, offsets: map<TensorId, nat>, ptr: int)
    requires forall t :: t in ts ==> t in n.tensorAt && t in offsets
    ensures forall t :: t in ts ==> Bind(n, ts, offsets, ptr).tensorAt[t].blob == Some(ptr + offsets[t])
    decreases |ts|
  {
    if ts != [] {
      var init := ts[..|ts| - 1];
      BindSets(n, init, offsets, ptr);
      forall t | t in ts && t != ts[|ts| - 1] ensures t in init {
        var i :| 0 <= i < |ts| && ts[i] == t;
        assert init[i] == t;
      }
    }
  }

  /** Binding leaves every tensor outside `ts` exactly as it was. */
  lemma {:induction false} BindKeeps(n: Net, ts: seq<TensorId>, offsets: map<TensorId, nat>, ptr: int)
    requires forall t :: t in ts ==> t in n.tensorAt && t in offsets
    ensures forall t :: t in n.tensorAt && t !in ts ==> Bind(n, ts, offsets, ptr).tensorAt[t] == n.tensorAt[t]
    decreases |ts|
  {
    if ts != [] {
      var init := ts[..|ts| - 1];
      BindKeeps(n, init, offsets, ptr);
      forall t | t in init ensures t in ts {
        var i :| 0 <= i < |init| && init[i] == t;
        assert ts[i] == t;
      }
    }
  }

  /** Each tensor `ts[i]` of `r` is bound to the storage at `ptr + offs[i]`. */
  ghost predicate BoundAt(r: Net, ts: seq<TensorId>, ptr: int, offs: seq<nat>) {
    && |offs| == |ts|
    && forall i :: 0 <= i < |ts| ==> ts[i] in r.tensorAt && r.tensorAt[ts[i]].blob == Some(ptr + offs[i])
  }

  /** Binding by the recorded offsets, with no tensor twice: the `i`-th tensor gets `ptr + offs[i]`. */
  lemma BindOffsets(n: Net, ts: seq<TensorId>, offs: seq<nat>, ptr: int)
    requires |ts| == |offs| && NoDups(ts) && forall t :: t in ts ==> t in n.tensorAt
    ensures BoundAt(Bind(n, ts, OffsetMap(ts, offs), ptr), ts, ptr, offs)
  {
    var m := OffsetMap(ts, offs);
    var b := Bind(n, ts, m, ptr);
    OffsetMapAt(ts, offs);
    BindSets(n, ts, m, ptr);
    forall i | 0 <= i < |ts| ensures b.tensorAt[ts[i]].blob == Some(ptr + offs[i]) {
      assert ts[i] in ts && m[ts[i]] == offs[i];
    }
  }

  /**
   * `dataMalloc`: sort (the assertion fails if that fails), allocate every listed tensor in list
   * order, realise the arena once, and bind every listed tensor to the base plus its offset.
   * `base` is the pointer of an arena realised earlier; `runtimeBase` is what the runtime hands
   * out to the first `getPtr`.
   */
  function DataMalloc(n: Net, a: Arena, base: int, runtimeBase: int, bytes: Tensor -> nat): Option<(Net, Arena, int)>
    requires Closed(n)
  {
    var (ok, n1) := TopoSort(n);
    if !ok then None
    else
      match AllocAll(a, Sizes(n1, bytes))
      case None => None
      case Some((a1, offs)) =>
        var ptr := if a1.realised then base else runtimeBase;
        Some((Bind(n1, n1.tensors, OffsetMap(n1.tensors, offs), ptr), Realise(a1), ptr))
  }

  /** The successful outcome of `dataMalloc`, in terms of the allocation loop over the sizes. */
  lemma DataMallocIs(n: Net, a: Arena, base: int, runtimeBase: int, bytes: Tensor -> nat)
    requires Closed(n) && TopoSort(n).0 && AllocAll(a, Sizes(n, bytes)).Some?
    ensures var (a1, offs) := AllocAll(a, Sizes(n, bytes)).value;
            var ptr := if a1.realised then base else runtimeBase;
            var n1 := TopoSort(n).1;
            DataMalloc(n, a, base, runtimeBase, bytes) == Some((Bind(n1, n.tensors, OffsetMap(n.tensors, offs), ptr), Realise(a1), ptr))
  {
    assert Sizes(TopoSort(n).1, bytes) == Sizes(n, bytes);
  }

  /**
   * `dataMalloc` fails exactly when the sort fails, when a listed tensor has no bytes, or when the
   * arena was realised before and there is a tensor to place.
   */
  lemma DataMallocFails(n: Net, a: Arena, base: int, runtimeBase: int, bytes: Tensor -> nat)
    requires Closed(n)
    ensures DataMalloc(n, a, base, runtimeBase, bytes).None? <==>
              || !TopoSort(n).0
              || (n.tensors != [] && a.realised)
              || exists i :: 0 <= i < |n.tensors| && bytes(n.tensorAt[n.tensors[i]]) == 0
  {
    if TopoSort(n).0 {
      AllocAllFails(a, Sizes(n, bytes));
      if AllocAll(a, Sizes(n, bytes)).Some? {
        DataMallocIs(n, a, base, runtimeBase, bytes);
      } else {
        assert Sizes(TopoSort(n).1, bytes) == Sizes(n, bytes);
      }
    }
  }

  /**
   * On success, with no tensor listed twice, the `i`-th listed tensor is bound at the returned
   * base plus the `i`-th offset of the allocation loop, a tensor no longer listed keeps its
   * record, and nothing else of the graph changes beyond the sort.
   */
  lemma DataMallocBinds(n: Net, a: Arena, base: int, runtimeBase: int, bytes: Tensor -> nat)
    requires Closed(n) && TopoSort(n).0 && NoDups(n.tensors) && AllocAll(a, Sizes(n, bytes)).Some?
    ensures var r := DataMalloc(n, a, base, runtimeBase, bytes);
            && r.Some?
            && OnlyBlobs(TopoSort(n).1, r.value.0)
            && BoundAt(r.value.0, n.tensors, r.value.2, AllocAll(a, Sizes(n, bytes)).value.1)
            && forall t :: t in n.tensorAt && t !in n.tensors ==> r.value.0.tensorAt[t] == n.tensorAt[t]
  {
    DataMallocIs(n, a, base, runtimeBase, bytes);
    var (a1, offs) := AllocAll(a, Sizes(n, bytes)).value;
    var ptr := if a1.realised then base else runtimeBase;
    BindOnlyBlobs(TopoSort(n).1, n.tensors, OffsetMap(n.tensors, offs), ptr);
    BindOffsets(TopoSort(n).1, n.tensors, offs, ptr);
    BindKeeps(TopoSort(n).1, n.tensors, OffsetMap(n.tensors, offs), ptr);
  }

  /**
   * From a fresh allocator, with every listed tensor of positive size: `dataMalloc` succeeds,
   * returns the runtime's base, realises an arena exactly as large as the aligned sizes added up,
   * and places the `i`-th listed tensor at the aligned sizes of the tensors before it.
   */
  lemma DataMallocFresh(n: Net, base: int, runtimeBase: int, bytes: Tensor -> nat)
    requires Closed(n) && TopoSort(n).0
    requires forall t :: t in n.tensors ==> bytes(n.tensorAt[t]) > 0
    ensures var r := DataMalloc(n, Empty, base, runtimeBase, bytes);
            var sizes := Sizes(n, bytes);
            && r.Some?
            && r.value.1 == Arena(AlignedTotal(sizes), AlignedTotal(sizes), true, [])
            && r.value.2 == runtimeBase
            && forall i :: 0 <= i < |sizes| ==> AllocAll(Empty, sizes).value.1[i] == AlignedTotal(sizes[..i])
  {
    var sizes := Sizes(n, bytes);
    forall i | 0 <= i < |sizes| ensures sizes[i] > 0 {
      assert n.tensors[i] in n.tensors;
    }
    FreshOffsets(sizes);
    DataMallocIs(n, Empty, base, runtimeBase, bytes);
  }

  /**
   * Under correct use of the allocator, with every listed tensor of positive size, `dataMalloc`
   * succeeds and the blocks it plans are pairwise disjoint and disjoint from every allocation
   * still live in the arena.
   */
  lemma DataMallocDisjoint(n: Net, a: Arena, live: seq<Block>, base: int, runtimeBase: int, bytes: Tensor -> nat)
    requires Closed(n) && TopoSort(n).0 && Tracks(a, live)
    requires forall t :: t in n.tensors ==> bytes(n.tensorAt[t]) > 0
    ensures DataMalloc(n, a, base, runtimeBase, bytes).Some?
    ensures AllocAll(a, Sizes(n, bytes)).Some?
    ensures var planned := Placed(AllocAll(a, Sizes(n, bytes)).value.1, Sizes(n, bytes));
            Pairwise(planned) && Apart(live, planned)
  {
    var sizes := Sizes(n, bytes);
    forall i | 0 <= i < |sizes| ensures sizes[i] > 0 {
      assert n.tensors[i] in n.tensors;
    }
    AllocAllTracks(a, live, sizes);
    DataMallocIs(n, a, base, runtimeBase, bytes);
    var planned := Placed(AllocAll(a, sizes).value.1, sizes);
    var all := live + planned;
    forall i, j | 0 <= i < j < |planned| ensures Disjoint(planned[i], planned[j]) {
      assert all[|live| + i] == planned[i] && all[|live| + j] == planned[j];
    }
    forall i, j | 0 <= i < |live| && 0 <= j < |planned| ensures Disjoint(live[i], planned[j]) {
      assert all[i] == live[i] && all[|live| + j] == planned[j];
    }
  }
}
