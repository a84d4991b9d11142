/**
 * Rule 1 of `GraphObj::optimize`: a Transpose whose output feeds exactly one operator, itself a
 * Transpose undoing the first permutation, is cut out together with that operator; the consumers
 * of the second output read the first Transpose's input instead. A Transpose record is taken to
 * carry its one input and one output; a record without them does not start a pair.
 */
module Pairs {
  import opened Common
  import opened Net
  import opened Permute
  import opened Wiring
  import opened Edits

  /** The Transpose that undoes `t1`, when `t1` is a Transpose whose output feeds only it. */
  function PairFrom(n: Net, t1: OpId): Option<OpId>
    requires Closed(n) && t1 in n.opAt
  {
    var x := n.opAt[t1];
    if !x.kind.Transpose? || |x.inputs| == 0 || |x.outputs| == 0 then None
    else
      var targets := n.tensorAt[x.outputs[0]].targets;
      if |targets| != 1 then None
      else
        var y := n.opAt[targets[0]];
        if !y.kind.Transpose? || |y.outputs| == 0 then None
        else if IsInverse(x.kind.perm, y.kind.perm) then Some(targets[0])
        else None
  }

  /** The scan of rule 1: the first listed operator, from position `i` on, that starts a pair. */
  function FindPair(n: Net, i: nat): Option<(OpId, OpId)>
    requires Closed(n) && i <= |n.ops|
    decreases |n.ops| - i
  {
    if i == |n.ops| then None
    else
      match PairFrom(n, n.ops[i])
      case Some(t2) => Some((n.ops[i], t2))
      case None => FindPair(n, i + 1)
  }

  /**
   * One consumer `c` of the second output: it drops the second Transpose as predecessor, is
   * linked after the source of `in1` (which drops the first Transpose as successor), reads `in1`
   * where it read `out2`, and becomes a target of `in1`.
   */
  function RewireConsumer(n: Net, t1: OpId, t2: OpId, in1: TensorId, out2: TensorId, c: OpId): (r: Net)
    requires c in n.opAt && in1 in n.tensorAt
    requires n.tensorAt[in1].source.Some? ==> n.tensorAt[in1].source.value in n.opAt
    ensures r.opAt.Keys == n.opAt.Keys && SameSources(n, r)
  {
    var m := Relink(n, t1, t2, in1, c);
    AddTarget(ReplaceInput(m, c, out2, in1), in1, c)
  }

  /** Every consumer of `cs`, in order. */
  function RewireAll(n: Net, t1: OpId, t2: OpId, in1: TensorId, out2: TensorId, cs: seq<OpId>): (r: Net)
    requires SourcesKnown(n) && in1 in n.tensorAt && forall c :: c in cs ==> c in n.opAt
    ensures r.opAt.Keys == n.opAt.Keys && SameSources(n, r)
  {
    if cs == [] then n
    else
      var m := RewireAll(n, t1, t2, in1, out2, cs[..|cs| - 1]);
      RewireConsumer(m, t1, t2, in1, out2, cs[|cs| - 1])
  }

  /**
   * The rewrite of one pair `t1`, `t2`: the consumers are rewired, both intermediate tensors
   * lose their source, `in1` stops feeding `t1`, and both tensors and both operators leave the
   * graph's lists.
   */
  function EliminatePair(n: Net, t1: OpId, t2: OpId): Net
    requires Closed(n) && t1 in n.opAt && PairFrom(n, t1) == Some(t2)
  {
    CutPair(n, t1, t2, n.opAt[t1].inputs[0], n.opAt[t1].outputs[0], n.opAt[t2].outputs[0])
  }

  /** The edits of `EliminatePair`, given the first input and the two intermediate tensors. */
  function CutPair(n: Net, t1: OpId, t2: OpId, in1: TensorId, out1: TensorId, out2: TensorId): Net
    requires SourcesKnown(n) && in1 in n.tensorAt && out1 in n.tensorAt && out2 in n.tensorAt
    requires forall c :: c in n.tensorAt[out2].targets ==> c in n.opAt
  {
    var m := RewireAll(n, t1, t2, in1, out2, n.tensorAt[out2].targets);
    var m1 := ClearSource(ClearSource(m, out1), out2);
    var m2 := RemoveTarget(m1, in1, t1);
    DropOp(DropOp(DropTensor(DropTensor(m2, out1), out2), t1), t2)
  }

  /** Rule 1 as the source runs it: the first pair found, if any, is removed, and only that one. */
  function Rule1Once(n: Net): Net
    requires Closed(n)
  {
    match FindPair(n, 0)
    case None => n
    case Some((t1, t2)) =>
      FindPairFinds(n, 0);
      EliminatePair(n, t1, t2)
  }

  // ---------------------------------------------------------------------------------------
  // Finding a pair

  /** The scan finds the first operator that starts a pair, and nothing exactly when none does. */
  lemma {:induction false} FindPairFinds(n: Net, i: nat)
    requires Closed(n) && i <= |n.ops|
    ensures var r := FindPair(n, i);
            && (r.None? <==> forall j :: i <= j < |n.ops| ==> PairFrom(n, n.ops[j]).None?)
            && (r.Some? ==>
                  && r.value.0 in n.opAt && PairFrom(n, r.value.0) == Some(r.value.1)
                  && exists j :: i <= j < |n.ops| && n.ops[j] == r.value.0
                       && forall k :: i <= k < j ==> PairFrom(n, n.ops[k]).None?)
    decreases |n.ops| - i
  {
    if i < |n.ops| && PairFrom(n, n.ops[i]).None? {
      FindPairFinds(n, i + 1);
    }
  }

  /**
   * A pair restores shapes: when each Transpose's output has the shape its permutation gives,
   * the second output has exactly the shape of the first input, so the consumers read a tensor
   * of the shape they read before.
   */
  lemma PairRestoresShape(n: Net, t1: OpId, t2: OpId)
    requires Closed(n) && t1 in n.opAt && PairFrom(n, t1) == Some(t2)
    requires var x, y := n.opAt[t1], n.opAt[t2];
             var s := n.tensorAt[x.inputs[0]].shape;
             && |x.kind.perm| == |y.kind.perm| == |s|
             && InRange(x.kind.perm, |s|)
             && n.tensorAt[x.outputs[0]].shape == TransposeShape(s, x.kind.perm)
             && InRange(y.kind.perm, |s|)
             && n.tensorAt[y.outputs[0]].shape == TransposeShape(n.tensorAt[x.outputs[0]].shape, y.kind.perm)
    ensures n.tensorAt[n.opAt[t2].outputs[0]].shape == n.tensorAt[n.opAt[t1].inputs[0]].shape
  {
    var x, y := n.opAt[t1], n.opAt[t2];
    InversePairCancels(n.tensorAt[x.inputs[0]].shape, x.kind.perm, y.kind.perm);
  }

  // ---------------------------------------------------------------------------------------
  // Rewiring

  /** One consumer on the operator side: only its inputs change, by the replacement. */
  lemma RewireConsumerOps(n: Net, t1: OpId, t2: OpId, in1: TensorId, out2: TensorId, c: OpId)
    requires c in n.opAt && in1 in n.tensorAt
    requires n.tensorAt[in1].source.Some? ==> n.tensorAt[in1].source.value in n.opAt
    ensures var r := RewireConsumer(n, t1, t2, in1, out2, c);
            && r.ops == n.ops && r.tensors == n.tensors && r.sorted == n.sorted
            && r.opAt[c].inputs == Replace(n.opAt[c].inputs, out2, in1)
            && (forall a :: a in n.opAt && a != c ==> r.opAt[a].inputs == n.opAt[a].inputs)
            && (forall a :: a in n.opAt ==> r.opAt[a].kind == n.opAt[a].kind && r.opAt[a].outputs == n.opAt[a].outputs)
  {
    var m := Relink(n, t1, t2, in1, c);
  }

  /** One consumer on the tensor side: `in1` gains it as a target and no other tensor changes. */
  lemma RewireConsumerTensors(n: Net, t1: OpId, t2: OpId, in1: TensorId, out2: TensorId, c: OpId)
    requires c in n.opAt && in1 in n.tensorAt
    requires n.tensorAt[in1].source.Some? ==> n.tensorAt[in1].source.value in n.opAt
    ensures RewireConsumer(n, t1, t2, in1, out2, c).tensorAt
         == n.tensorAt[in1 := n.tensorAt[in1].(targets := n.tensorAt[in1].targets + [c])]
  {
    var m := Relink(n, t1, t2, in1, c);
  }

  /**
   * Rewiring a list of consumers, operator side: each listed consumer reads `in1` wherever it
   * read `out2`, and no other operator's inputs change.
   */
  lemma {:induction false} RewireAllOps(n: Net, t1: OpId, t2: OpId, in1: TensorId, out2: TensorId, cs: seq<OpId>)
    requires SourcesKnown(n) && in1 in n.tensorAt && forall c :: c in cs ==> c in n.opAt
    ensures var r := RewireAll(n, t1, t2, in1, out2, cs);
            && r.ops == n.ops && r.tensors == n.tensors && r.sorted == n.sorted
            && (forall c :: c in cs ==> r.opAt[c].inputs == Replace(n.opAt[c].inputs, out2, in1))
            && (forall a :: a in n.opAt && a !in cs ==> r.opAt[a].inputs == n.opAt[a].inputs)
            && (forall a :: a in n.opAt ==> r.opAt[a].kind == n.opAt[a].kind && r.opAt[a].outputs == n.opAt[a].outputs)
    decreases |cs|
  {
    if cs != [] {
      var init := cs[..|cs| - 1];
      var c := cs[|cs| - 1];
      var m := RewireAll(n, t1, t2, in1, out2, init);
      RewireAllOps(n, t1, t2, in1, out2, init);
      RewireConsumerOps(m, t1, t2, in1, out2, c);
      var r := RewireConsumer(m, t1, t2, in1, out2, c);
      forall d | d in cs ensures r.opAt[d].inputs == Replace(n.opAt[d].inputs, out2, in1) {
        InInit(cs, d);
        if d == c && d in init {
          ReplaceTwice(n.opAt[d].inputs, out2, in1);
        }
      }
      forall a | a in n.opAt && a !in cs ensures r.opAt[a].inputs == n.opAt[a].inputs {
        assert a !in init && a != c;
      }
    }
  }

  /** Rewiring a list of consumers, tensor side: `in1`'s targets grow by the list, in order. */
  lemma {:induction false} RewireAllTensors(n: Net, t1: OpId, t2: OpId, in1: TensorId, out2: TensorId, cs: seq<OpId>)
    requires SourcesKnown(n) && in1 in n.tensorAt && forall c :: c in cs ==> c in n.opAt
    ensures RewireAll(n, t1, t2, in1, out2, cs).tensorAt
         == n.tensorAt[in1 := n.tensorAt[in1].(targets := n.tensorAt[in1].targets + cs)]
    decreases |cs|
  {
    if cs != [] {
      var init := cs[..|cs| - 1];
      var c := cs[|cs| - 1];
      var m := RewireAll(n, t1, t2, in1, out2, init);
      RewireAllTensors(n, t1, t2, in1, out2, init);
      RewireConsumerTensors(m, t1, t2, in1, out2, c);
      TargetsGrowStep(n.tensorAt, m.tensorAt, RewireConsumer(m, t1, t2, in1, out2, c).tensorAt, in1, cs);
    } else {
      var x := n.tensorAt[in1];
      assert x.targets + cs == x.targets;
      assert n.tensorAt[in1 := x] == n.tensorAt;
    }
  }

  /** One consumer, neighbour side, at operator `a`: the edits of `Relink`, and no others. */
  lemma RewireConsumerNeighbours(n: Net, t1: OpId, t2: OpId, in1: TensorId, out2: TensorId, c: OpId, a: OpId)
    requires c in n.opAt && in1 in n.tensorAt
    requires n.tensorAt[in1].source.Some? ==> n.tensorAt[in1].source.value in n.opAt
    requires a in n.opAt
    ensures var r := RewireConsumer(n, t1, t2, in1, out2, c);
            && r.opAt[a].preds
               == (if a == c then (n.opAt[a].preds - {t2}) + SourceSet(n, in1) else n.opAt[a].preds)
            && r.opAt[a].succs
               == (if n.tensorAt[in1].source == Some(a) then (n.opAt[a].succs - {t1}) + {c}
                   else n.opAt[a].succs)
  {
    var m := Relink(n, t1, t2, in1, c);
    assert ReplaceInput(m, c, out2, in1).opAt[a].preds == m.opAt[a].preds;
    assert ReplaceInput(m, c, out2, in1).opAt[a].succs == m.opAt[a].succs;
  }

  /**
   * Rewiring a list of consumers, neighbour side: each consumer trades `t2` for the source of
   * `in1` among its predecessors, and that source, once there is a consumer, trades `t1` for
   * the consumers among its successors; no other cache changes.
   */
  lemma RewireAllNeighbours(n: Net, t1: OpId, t2: OpId, in1: TensorId, out2: TensorId, cs: seq<OpId>)
    requires SourcesKnown(n) && in1 in n.tensorAt && forall c :: c in cs ==> c in n.opAt
    requires t2 !in SourceSet(n, in1) && t1 !in cs
    ensures var r := RewireAll(n, t1, t2, in1, out2, cs);
            forall a :: a in n.opAt ==>
              && r.opAt[a].preds
                 == (if a in cs then (n.opAt[a].preds - {t2}) + SourceSet(n, in1) else n.opAt[a].preds)
              && r.opAt[a].succs
                 == (if n.tensorAt[in1].source == Some(a) && cs != []
                     then (n.opAt[a].succs - {t1}) + (set c | c in cs) else n.opAt[a].succs)
  {
    forall a | a in n.opAt
      ensures var r := RewireAll(n, t1, t2, in1, out2, cs);
              && r.opAt[a].preds
                 == (if a in cs then (n.opAt[a].preds - {t2}) + SourceSet(n, in1) else n.opAt[a].preds)
              && r.opAt[a].succs
                 == (if n.tensorAt[in1].source == Some(a) && cs != []
                     then (n.opAt[a].succs - {t1}) + (set c | c in cs) else n.opAt[a].succs)
    {
      RewireAllNeighboursAt(n, t1, t2, in1, out2, cs, a);
    }
  }

  /** `RewireAllNeighbours` for one operator `a`. */
  lemma {:induction false} RewireAllNeighboursAt(n: Net, t1: OpId, t2: OpId, in1: TensorId, out2: TensorId,
                                                 cs: seq<OpId>, a: OpId)
    requires SourcesKnown(n) && in1 in n.tensorAt && forall c :: c in cs ==> c in n.opAt
    requires t2 !in SourceSet(n, in1) && t1 !in cs && a in n.opAt
    ensures var r := RewireAll(n, t1, t2, in1, out2, cs);
            && r.opAt[a].preds
               == (if a in cs then (n.opAt[a].preds - {t2}) + SourceSet(n, in1) else n.opAt[a].preds)
            && r.opAt[a].succs
               == (if n.tensorAt[in1].source == Some(a) && cs != []
                   then (n.opAt[a].succs - {t1}) + (set c | c in cs) else n.opAt[a].succs)
    decreases |cs|
  {
    if cs != [] {
      var init := cs[..|cs| - 1];
      var c := cs[|cs| - 1];
      var m := RewireAll(n, t1, t2, in1, out2, init);
      var r := RewireConsumer(m, t1, t2, in1, out2, c);
      assert r == RewireAll(n, t1, t2, in1, out2, cs);
      RewireAllNeighboursAt(n, t1, t2, in1, out2, init, a);
      RewireConsumerNeighbours(m, t1, t2, in1, out2, c, a);
      assert SourceSet(m, in1) == SourceSet(n, in1);
      assert m.tensorAt[in1].source == n.tensorAt[in1].source;
      InInitSet(cs, a);
      PredsStep(n.opAt[a].preds, m.opAt[a].preds, r.opAt[a].preds, t2, SourceSet(n, in1), a in init, a == c);
      if n.tensorAt[in1].source == Some(a) {
        SuccsStep(n.opAt[a].succs, m.opAt[a].succs, r.opAt[a].succs, t1, cs, init);
      }
    }
  }

  /** Trading `t2` for the same source twice is trading it once. */
  lemma PredsStep(p0: set<OpId>, p1: set<OpId>, p2: set<OpId>, t2: OpId, src: set<OpId>, before: bool, now: bool)
    requires t2 !in src
    requires p1 == (if before then (p0 - {t2}) + src else p0)
    requires p2 == (if now then (p1 - {t2}) + src else p1)
    ensures p2 == (if before || now then (p0 - {t2}) + src else p0)
  {
  }

  /** `a` is in a list exactly when it is in the list's first part or is its last element. */
  lemma InInitSet<T>(xs: seq<T>, a: T)
    requires xs != []
    ensures a in xs <==> a in xs[..|xs| - 1] || a == xs[|xs| - 1]
  {
    if a in xs {
      InInit(xs, a);
    }
  }

  /** Trading `t1` for a run of consumers and then for one more trades it for the longer run. */
  lemma SuccsStep(s0: set<OpId>, s1: set<OpId>, s2: set<OpId>, t1: OpId, cs: seq<OpId>, init: seq<OpId>)
    requires cs != [] && t1 !in cs && init == cs[..|cs| - 1]
    requires s1 == (if init != [] then (s0 - {t1}) + (set d | d in init) else s0)
    requires s2 == (s1 - {t1}) + {cs[|cs| - 1]}
    ensures s2 == (s0 - {t1}) + (set d | d in cs)
  {
    forall d | d in cs ensures d in init || d == cs[|cs| - 1] {
      InInit(cs, d);
    }
    assert t1 !in init;
  }

  /** Appending one target after appending a run of them appends the longer run. */
  lemma TargetsGrowStep(m0: map<TensorId, Tensor>, m1: map<TensorId, Tensor>, m2: map<TensorId, Tensor>,
                        t: TensorId, cs: seq<OpId>)
    requires t in m0 && cs != []
    requires m1 == m0[t := m0[t].(targets := m0[t].targets + cs[..|cs| - 1])]
    requires m2 == m1[t := m1[t].(targets := m1[t].targets + [cs[|cs| - 1]])]
    ensures m2 == m0[t := m0[t].(targets := m0[t].targets + cs)]
  {
    assert cs[..|cs| - 1] + [cs[|cs| - 1]] == cs;
    assert m0[t].targets + cs[..|cs| - 1] + [cs[|cs| - 1]] == m0[t].targets + cs;
  }

  lemma RewireConsumerKeepsClosed(n: Net, t1: OpId, t2: OpId, in1: TensorId, out2: TensorId, c: OpId)
    requires Closed(n) && c in n.opAt && in1 in n.tensorAt
    ensures Closed(RewireConsumer(n, t1, t2, in1, out2, c))
  {
    var m2 := Relink(n, t1, t2, in1, c);
    OnlyNeighboursKeepClosed(n, m2);
    ReplaceInputKeepsClosed(m2, c, out2, in1);
    AddTargetKeepsClosed(ReplaceInput(m2, c, out2, in1), in1, c);
  }

  lemma {:induction false} RewireAllKeepsClosed(n: Net, t1: OpId, t2: OpId, in1: TensorId, out2: TensorId, cs: seq<OpId>)
    requires Closed(n) && in1 in n.tensorAt && forall c :: c in cs ==> c in n.opAt
    ensures Closed(RewireAll(n, t1, t2, in1, out2, cs))
    decreases |cs|
  {
    if cs != [] {
      var init := cs[..|cs| - 1];
      RewireAllKeepsClosed(n, t1, t2, in1, out2, init);
      RewireConsumerKeepsClosed(RewireAll(n, t1, t2, in1, out2, init), t1, t2, in1, out2, cs[|cs| - 1]);
    }
  }

  // ---------------------------------------------------------------------------------------
  // What removing a pair does

  /**
   * Operator side: every consumer of the second output reads the first input wherever it read
   * the second output, and no other operator's inputs, no kind and no outputs change.
   */
  lemma CutPairOps(n: Net, t1: OpId, t2: OpId, in1: TensorId, out1: TensorId, out2: TensorId)
    requires SourcesKnown(n) && in1 in n.tensorAt && out1 in n.tensorAt && out2 in n.tensorAt
    requires forall c :: c in n.tensorAt[out2].targets ==> c in n.opAt
    ensures var r, cs := CutPair(n, t1, t2, in1, out1, out2), n.tensorAt[out2].targets;
            && r.opAt.Keys == n.opAt.Keys
            && (forall c :: c in cs ==> r.opAt[c].inputs == Replace(n.opAt[c].inputs, out2, in1))
            && (forall a :: a in n.opAt && a !in cs ==> r.opAt[a].inputs == n.opAt[a].inputs)
            && (forall a :: a in n.opAt ==> r.opAt[a].kind == n.opAt[a].kind && r.opAt[a].outputs == n.opAt[a].outputs)
  {
    RewireAllOps(n, t1, t2, in1, out2, n.tensorAt[out2].targets);
  }

  /**
   * Tensor side: the first input gains the consumers as targets and loses the first Transpose,
   * both intermediate tensors lose their source, every other tensor is as it was, and no fuid
   * changes.
   */
  lemma CutPairTensors(n: Net, t1: OpId, t2: OpId, in1: TensorId, out1: TensorId, out2: TensorId)
    requires SourcesKnown(n) && in1 in n.tensorAt && out1 in n.tensorAt && out2 in n.tensorAt
    requires forall c :: c in n.tensorAt[out2].targets ==> c in n.opAt
    ensures var r := CutPair(n, t1, t2, in1, out1, out2);
            && r.tensorAt.Keys == n.tensorAt.Keys
            && r.tensorAt[in1].targets == RemoveAll(n.tensorAt[in1].targets + n.tensorAt[out2].targets, t1)
            && r.tensorAt[out1].source == None && r.tensorAt[out2].source == None
            && (forall t :: t in n.tensorAt ==> r.tensorAt[t].fuid == n.tensorAt[t].fuid)
            && (forall t :: t in n.tensorAt && t != out1 && t != out2 ==> r.tensorAt[t].source == n.tensorAt[t].source)
            && (forall t :: t in n.tensorAt && t != in1 && t != out1 && t != out2 ==> r.tensorAt[t] == n.tensorAt[t])
  {
    var cs := n.tensorAt[out2].targets;
    var m := RewireAll(n, t1, t2, in1, out2, cs);
    RewireAllTensors(n, t1, t2, in1, out2, cs);
    var a := ClearSource(m, out1).tensorAt;
    var b := ClearSource(ClearSource(m, out1), out2).tensorAt;
    var c := RemoveTarget(ClearSource(ClearSource(m, out1), out2), in1, t1).tensorAt;
    TensorSteps(n.tensorAt, m.tensorAt, a, b, c, in1, out1, out2, cs, t1);
    TensorStepsFuids(n.tensorAt, m.tensorAt, a, b, c, in1, out1, out2, cs, t1);
  }

  /** None of the four steps touches a fuid. */
  lemma TensorStepsFuids(m0: map<TensorId, Tensor>, m: map<TensorId, Tensor>, a: map<TensorId, Tensor>,
                         b: map<TensorId, Tensor>, c: map<TensorId, Tensor>,
                         in1: TensorId, out1: TensorId, out2: TensorId, cs: seq<OpId>, t1: OpId)
    requires in1 in m0 && out1 in m0 && out2 in m0
    requires m == m0[in1 := m0[in1].(targets := m0[in1].targets + cs)]
    requires a == m[out1 := m[out1].(source := None)]
    requires b == a[out2 := a[out2].(source := None)]
    requires c == b[in1 := b[in1].(targets := RemoveAll(b[in1].targets, t1))]
    ensures forall t :: t in m0 ==> t in c && c[t].fuid == m0[t].fuid
  {
  }

  /** The four tensor-side steps of removing a pair, as updates of the tensor map. */
  lemma TensorSteps(m0: map<TensorId, Tensor>, m: map<TensorId, Tensor>, a: map<TensorId, Tensor>,
                    b: map<TensorId, Tensor>, c: map<TensorId, Tensor>,
                    in1: TensorId, out1: TensorId, out2: TensorId, cs: seq<OpId>, t1: OpId)
    requires in1 in m0 && out1 in m0 && out2 in m0
    requires m == m0[in1 := m0[in1].(targets := m0[in1].targets + cs)]
    requires a == m[out1 := m[out1].(source := None)]
    requires b == a[out2 := a[out2].(source := None)]
    requires c == b[in1 := b[in1].(targets := RemoveAll(b[in1].targets, t1))]
    ensures && c.Keys == m0.Keys
            && c[in1].targets == RemoveAll(m0[in1].targets + cs, t1)
            && c[out1].source == None && c[out2].source == None
            && (forall t :: t in m0 && t != out1 && t != out2 ==> c[t].source == m0[t].source)
            && (forall t :: t in m0 && t != in1 && t != out1 && t != out2 ==> c[t] == m0[t])
  {
  }

  /** Neighbour side: as for rewiring the consumers of the second output. */
  lemma CutPairNeighbours(n: Net, t1: OpId, t2: OpId, in1: TensorId, out1: TensorId, out2: TensorId)
    requires SourcesKnown(n) && in1 in n.tensorAt && out1 in n.tensorAt && out2 in n.tensorAt
    requires forall c :: c in n.tensorAt[out2].targets ==> c in n.opAt
    requires t2 !in SourceSet(n, in1) && t1 !in n.tensorAt[out2].targets
    ensures var r, cs := CutPair(n, t1, t2, in1, out1, out2), n.tensorAt[out2].targets;
            && r.opAt.Keys == n.opAt.Keys
            && forall a :: a in n.opAt ==>
                 && r.opAt[a].preds
                    == (if a in cs then (n.opAt[a].preds - {t2}) + SourceSet(n, in1) else n.opAt[a].preds)
                 && r.opAt[a].succs
                    == (if n.tensorAt[in1].source == Some(a) && cs != []
                        then (n.opAt[a].succs - {t1}) + (set c | c in cs) else n.opAt[a].succs)
  {
    RewireAllNeighbours(n, t1, t2, in1, out2, n.tensorAt[out2].targets);
  }

  /**
   * List side, for lists without repeats: exactly the two Transposes leave the operator list and
   * exactly the two intermediate tensors leave the tensor list.
   */
  lemma CutPairLists(n: Net, t1: OpId, t2: OpId, in1: TensorId, out1: TensorId, out2: TensorId)
    requires SourcesKnown(n) && in1 in n.tensorAt && out1 in n.tensorAt && out2 in n.tensorAt
    requires forall c :: c in n.tensorAt[out2].targets ==> c in n.opAt
    requires NoDups(n.ops) && NoDups(n.tensors)
    ensures var r := CutPair(n, t1, t2, in1, out1, out2);
            && r.sorted == n.sorted
            && NoDups(r.ops) && NoDups(r.tensors)
            && (forall o :: o in r.ops <==> o in n.ops && o != t1 && o != t2)
            && (forall t :: t in r.tensors <==> t in n.tensors && t != out1 && t != out2)
  {
    RewireAllOps(n, t1, t2, in1, out2, n.tensorAt[out2].targets);
    RemoveFirstNoDups(n.tensors, out1);
    RemoveFirstNoDups(RemoveFirst(n.tensors, out1), out2);
    RemoveFirstNoDups(n.ops, t1);
    RemoveFirstNoDups(RemoveFirst(n.ops, t1), t2);
  }

  lemma CutPairKeepsClosed(n: Net, t1: OpId, t2: OpId, in1: TensorId, out1: TensorId, out2: TensorId)
    requires Closed(n) && in1 in n.tensorAt && out1 in n.tensorAt && out2 in n.tensorAt
    ensures Closed(CutPair(n, t1, t2, in1, out1, out2))
  {
    var m := RewireAll(n, t1, t2, in1, out2, n.tensorAt[out2].targets);
    RewireAllKeepsClosed(n, t1, t2, in1, out2, n.tensorAt[out2].targets);
    ClearSourceKeepsClosed(m, out1);
    ClearSourceKeepsClosed(ClearSource(m, out1), out2);
    var m1 := ClearSource(ClearSource(m, out1), out2);
    RemoveTargetKeepsClosed(m1, in1, t1);
    var m2 := RemoveTarget(m1, in1, t1);
    DropsKeepClosed(m2, out1, t1);
    DropsKeepClosed(DropTensor(m2, out1), out2, t1);
    DropsKeepClosed(DropTensor(DropTensor(m2, out1), out2), out1, t1);
    DropsKeepClosed(DropOp(DropTensor(DropTensor(m2, out1), out2), t1), out1, t2);
  }

  /** Rule 1 leaves a graph without a pair alone and keeps every graph closed. */
  lemma Rule1OnceKeepsClosed(n: Net)
    requires Closed(n)
    ensures Closed(Rule1Once(n))
    ensures (forall j :: 0 <= j < |n.ops| ==> PairFrom(n, n.ops[j]).None?) ==> Rule1Once(n) == n
  {
    FindPairFinds(n, 0);
    match FindPair(n, 0)
    case None =>
    case Some((t1, t2)) =>
      var x := n.opAt[t1];
      CutPairKeepsClosed(n, t1, t2, x.inputs[0], x.outputs[0], n.opAt[t2].outputs[0]);
  }
}
