/**
 * What the rewrites of `GraphObj::optimize` do to the order of the operator list. Neither rule
 * touches the `sorted` flag, so a graph sorted before `optimize` is still marked sorted after
 * it, and the `topo_sort` at the start of `dataMalloc` returns at once. That is sound because
 * both rules only shorten dependency chains: rule 2 makes the MatMul read the Transpose's input,
 * whose source comes before the Transpose and so before the MatMul; rule 1 makes each consumer
 * of the second output read the first input, whose source comes before both Transposes. A list
 * in input order therefore stays in input order, and sorting it again would not change it.
 */
module Order {
  import opened Common
  import opened Net
  import opened Topo
  import opened Edits
  import opened Pairs
  import opened Fusion
  import opened Validity

  /** Every Transpose has exactly one output, the tensor `getOutput()` returns. */
  ghost predicate OneOutputTransposes(n: Net) {
    forall o :: o in n.opAt && n.opAt[o].kind.Transpose? ==> |n.opAt[o].outputs| == 1
  }

  /**
   * What the rewrites keep: a closed state whose operator list has no repeats and is in input
   * order, with sources matching outputs and single-output Transposes.
   */
  ghost predicate Ordered(n: Net) {
    && Closed(n) && NoDups(n.ops) && InputsFirst(n, n.ops)
    && SourcesMatch(n) && OneOutputTransposes(n)
  }

  // ---------------------------------------------------------------------------------------
  // Removing operators from an ordered list

  /**
   * In the order `xs`, each operator of `r` other than the removed `g1` and `g2` reads only
   * tensors whose source, if any, is neither of them and comes earlier in `xs`.
   */
  ghost predicate ReadsEarlier(xs: seq<OpId>, r: Net, g1: OpId, g2: OpId)
    requires Closed(r)
  {
    forall i, t :: ReadsEarlierAt(xs, r, g1, g2, i, t)
  }

  /** `ReadsEarlier` for the operator at position `i` and its input `t`. */
  ghost predicate ReadsEarlierAt(xs: seq<OpId>, r: Net, g1: OpId, g2: OpId, i: int, t: TensorId)
    requires Closed(r)
  {
    (0 <= i < |xs| && xs[i] != g1 && xs[i] != g2 && xs[i] in r.opAt && t in r.opAt[xs[i]].inputs
     && r.tensorAt[t].source.Some?)
    ==> r.tensorAt[t].source.value != g1 && r.tensorAt[t].source.value != g2
        && r.tensorAt[t].source.value in xs[..i]
  }

  /** Erasing a removed operator from the order keeps everyone else reading earlier operators. */
  lemma DropKeepsReadsEarlier(xs: seq<OpId>, x: OpId, r: Net, g1: OpId, g2: OpId)
    requires Closed(r) && NoDups(xs) && (x == g1 || x == g2) && ReadsEarlier(xs, r, g1, g2)
    ensures ReadsEarlier(RemoveFirst(xs, x), r, g1, g2)
  {
    var ys := RemoveFirst(xs, x);
    forall i, t ensures ReadsEarlierAt(ys, r, g1, g2, i, t) {
      if 0 <= i < |ys| {
        var j := RemoveFirstKeepsBefore(xs, x, i);
        assert ReadsEarlierAt(xs, r, g1, g2, j, t);
      }
    }
  }

  /** Once only kept operators are listed, reading earlier operators is being in input order. */
  lemma ReadsEarlierInOrder(r: Net, g1: OpId, g2: OpId)
    requires Closed(r) && ReadsEarlier(r.ops, r, g1, g2) && forall o :: o in r.ops ==> o != g1 && o != g2
    ensures InputsFirst(r, r.ops)
  {
    forall i, t | 0 <= i < |r.ops| && r.ops[i] in r.opAt && t in r.opAt[r.ops[i]].inputs
                  && r.tensorAt[t].source.Some?
      ensures r.tensorAt[t].source.value in r.ops[..i]
    {
      assert r.ops[i] in r.ops;
      assert ReadsEarlierAt(r.ops, r, g1, g2, i, t);
    }
  }

  /** In a list without repeats an operator sits at one position only. */
  lemma OnePosition(xs: seq<OpId>, i: nat, j: nat)
    requires NoDups(xs) && i < |xs| && j < |xs| && xs[i] == xs[j]
    ensures i == j
  {
  }

  /** A listed source read in input order sits before its reader. */
  lemma SourceBefore(n: Net, i: nat, t: TensorId) returns (j: nat)
    requires Closed(n) && InputsFirst(n, n.ops) && i < |n.ops| && t in n.opAt[n.ops[i]].inputs
    requires n.tensorAt[t].source.Some?
    ensures j < i && n.ops[j] == n.tensorAt[t].source.value
  {
    assert n.ops[i] in n.ops;
    var p := n.tensorAt[t].source.value;
    assert p in n.ops[..i];
    j :| 0 <= j < i && n.ops[..i][j] == p;
  }

  // ---------------------------------------------------------------------------------------
  // Rule 2

  /**
   * Operator side of a merge as `r` sees it: `mm` reads `tin` at slot `k`, and no other input,
   * no output and no Transpose tag changes.
   */
  ghost predicate MergedOps(n: Net, r: Net, mm: OpId, k: nat, tin: TensorId)
    requires mm in n.opAt && k < |n.opAt[mm].inputs|
  {
    && r.opAt.Keys == n.opAt.Keys
    && r.opAt[mm].inputs == n.opAt[mm].inputs[k := tin]
    && (forall a :: a in n.opAt && a != mm ==> r.opAt[a].inputs == n.opAt[a].inputs)
    && (forall a :: a in n.opAt ==>
          r.opAt[a].outputs == n.opAt[a].outputs && r.opAt[a].kind.Transpose? == n.opAt[a].kind.Transpose?)
  }

  /** Tensor side of a removal as `r` sees it: `c1` and `c2` lose their source, no other tensor does. */
  ghost predicate ClearedSources(n: Net, r: Net, c1: TensorId, c2: TensorId) {
    && r.tensorAt.Keys == n.tensorAt.Keys
    && c1 in n.tensorAt && r.tensorAt[c1].source == None
    && c2 in n.tensorAt && r.tensorAt[c2].source == None
    && (forall t :: t in n.tensorAt && t != c1 && t != c2 ==> r.tensorAt[t].source == n.tensorAt[t].source)
  }

  lemma MergedHolds(n: Net, mm: OpId, k: nat)
    requires Closed(n) && mm in n.opAt && Fusable(n, mm, k)
    ensures var input := n.opAt[mm].inputs[k];
            var s := n.tensorAt[input].source.value;
            var r := Merge(n, mm, k);
            && MergedOps(n, r, mm, k, n.opAt[s].inputs[0])
            && ClearedSources(n, r, input, input)
            && r.ops == RemoveFirst(n.ops, s) && r.sorted == n.sorted
  {
    var input := n.opAt[mm].inputs[k];
    var s := n.tensorAt[input].source.value;
    var tin := n.opAt[s].inputs[0];
    var m1 := Retarget(Rewire(n, mm, k, s, tin), mm, input, s, tin);
    MergedOpsHold(n, mm, k, input, s, tin);
    MergedSourcesHold(n, mm, k, input, s, tin);
    var m2 := if |m1.tensorAt[input].targets| == 0 then DropTensor(m1, input) else m1;
    assert Merge(n, mm, k) == DropOp(m2, s);
  }

  /** The edits of a merge before the lists shrink, operator side. */
  lemma MergedOpsHold(n: Net, mm: OpId, k: nat, input: TensorId, s: OpId, tin: TensorId)
    requires SourcesKnown(n) && mm in n.opAt && n.opAt[mm].kind.MatMul? && k < |n.opAt[mm].inputs|
    requires input in n.tensorAt && tin in n.tensorAt
    ensures var m1 := Retarget(Rewire(n, mm, k, s, tin), mm, input, s, tin);
            MergedOps(n, m1, mm, k, tin) && m1.ops == n.ops && m1.sorted == n.sorted
  {
    RewireOps(n, mm, k, s, tin);
  }

  /** The edits of a merge before the lists shrink, tensor side. */
  lemma MergedSourcesHold(n: Net, mm: OpId, k: nat, input: TensorId, s: OpId, tin: TensorId)
    requires SourcesKnown(n) && mm in n.opAt && n.opAt[mm].kind.MatMul? && k < |n.opAt[mm].inputs|
    requires input in n.tensorAt && tin in n.tensorAt
    ensures ClearedSources(n, Retarget(Rewire(n, mm, k, s, tin), mm, input, s, tin), input, input)
  {
    RetargetTensors(Rewire(n, mm, k, s, tin), mm, input, s, tin);
  }

  /** After a merge, `mm` reads at most `tin` besides what it read before. */
  lemma MergedInput(x: seq<TensorId>, k: nat, tin: TensorId, t: TensorId)
    requires k < |x| && t in x[k := tin] && t != tin
    ensures t in x
  {
    var j :| 0 <= j < |x[k := tin]| && x[k := tin][j] == t;
    assert x[j] == t;
  }

  /** A tensor made by a listed single-output Transpose is that Transpose's one output. */
  lemma OnlyOutput(n: Net, s: OpId, t: TensorId, u: TensorId)
    requires SourcesMatch(n) && OneOutputTransposes(n)
    requires s in n.ops && s in n.opAt && n.opAt[s].kind.Transpose?
    requires t in n.tensorAt && u in n.tensorAt
    requires n.tensorAt[t].source == Some(s) && n.tensorAt[u].source == Some(s)
    ensures t == u
  {
    assert t in n.opAt[s].outputs && u in n.opAt[s].outputs;
  }

  /** The operator at position `i` still reads only tensors made earlier, and not by `s`. */
  lemma MergeReadsEarlierAt(n: Net, r: Net, mm: OpId, k: nat, input: TensorId, s: OpId, tin: TensorId,
                            im: nat, js: nat, i: nat, t: TensorId)
    requires Ordered(n) && mm in n.opAt && k < |n.opAt[mm].inputs|
    requires MergedOps(n, r, mm, k, tin) && ClearedSources(n, r, input, input)
    requires im < |n.ops| && n.ops[im] == mm && js < im && n.ops[js] == s
    requires n.opAt[mm].inputs[k] == input && n.tensorAt[input].source == Some(s)
    requires s in n.opAt && n.opAt[s].kind.Transpose? && |n.opAt[s].inputs| >= 1 && tin == n.opAt[s].inputs[0]
    requires i < |n.ops| && n.ops[i] != s && t in r.opAt[n.ops[i]].inputs && r.tensorAt[t].source.Some?
    ensures r.tensorAt[t].source.value != s && r.tensorAt[t].source.value in n.ops[..i]
  {
    var o := n.ops[i];
    assert o in n.ops;
    if o == mm && t == tin {
      OnePosition(n.ops, i, im);
      var ip := SourceBefore(n, js, tin);
      assert n.ops[ip] in n.ops[..i];
      assert n.ops[ip] != n.ops[js];
    } else {
      if o == mm {
        MergedInput(n.opAt[mm].inputs, k, tin, t);
      }
      assert t in n.opAt[o].inputs && t != input;
      var ip := SourceBefore(n, i, t);
      assert n.ops[ip] in n.ops[..i];
      if r.tensorAt[t].source.value == s {
        assert s in n.ops;
        OnlyOutput(n, s, t, input);
      }
    }
  }

  /** Every kept operator still reads only tensors made earlier, and not by `s`. */
  lemma MergeReadsEarlier(n: Net, r: Net, mm: OpId, k: nat, input: TensorId, s: OpId, tin: TensorId)
    requires Ordered(n) && Closed(r) && mm in n.ops && k < |n.opAt[mm].inputs|
    requires MergedOps(n, r, mm, k, tin) && ClearedSources(n, r, input, input)
    requires n.opAt[mm].inputs[k] == input && n.tensorAt[input].source == Some(s)
    requires s in n.opAt && n.opAt[s].kind.Transpose? && |n.opAt[s].inputs| >= 1 && tin == n.opAt[s].inputs[0]
    ensures ReadsEarlier(n.ops, r, s, s)
  {
    var im :| 0 <= im < |n.ops| && n.ops[im] == mm;
    var js := SourceBefore(n, im, input);
    forall i, t ensures ReadsEarlierAt(n.ops, r, s, s, i, t) {
      if 0 <= i < |n.ops| && n.ops[i] != s && n.ops[i] in r.opAt && t in r.opAt[n.ops[i]].inputs
         && r.tensorAt[t].source.Some? {
        MergeReadsEarlierAt(n, r, mm, k, input, s, tin, im, js, i, t);
      }
    }
  }

  /** A merge keeps the list in input order, keeps sources matching outputs, and keeps `sorted`. */
  lemma MergeKeepsOrder(n: Net, mm: OpId, k: nat)
    requires Ordered(n) && mm in n.ops && Fusable(n, mm, k)
    ensures Ordered(Merge(n, mm, k)) && Merge(n, mm, k).sorted == n.sorted
  {
    var input := n.opAt[mm].inputs[k];
    var s := n.tensorAt[input].source.value;
    var r := Merge(n, mm, k);
    MergedHolds(n, mm, k);
    MergeProgress(n, mm, k);
    MergeReadsEarlier(n, r, mm, k, input, s, n.opAt[s].inputs[0]);
    DropKeepsReadsEarlier(n.ops, s, r, s, s);
    RemoveFirstNoDups(n.ops, s);
    ReadsEarlierInOrder(r, s, s);
    KeptSourcesMatch(n, r, s, s, input, input);
  }

  /**
   * Taking `g1` and `g2` off the list and the sources of `c1` and `c2`, which they make, away
   * keeps sources matching outputs.
   */
  lemma KeptSourcesMatch(n: Net, r: Net, g1: OpId, g2: OpId, c1: TensorId, c2: TensorId)
    requires SourcesMatch(n) && ClearedSources(n, r, c1, c2)
    requires r.opAt.Keys == n.opAt.Keys
    requires forall a :: a in n.opAt ==> r.opAt[a].outputs == n.opAt[a].outputs
    requires forall o :: o in r.ops ==> o in n.ops && o != g1 && o != g2
    requires n.tensorAt[c1].source == Some(g1) && n.tensorAt[c2].source == Some(g2)
    ensures SourcesMatch(r)
  {
    forall o, t | o in r.ops && o in r.opAt && t in r.tensorAt
      ensures r.tensorAt[t].source == Some(o) <==> t in r.opAt[o].outputs
    {
      assert o in n.ops && o != g1 && o != g2;
    }
  }

  /** The rule-2 loop keeps the list in input order and keeps `sorted`. */
  lemma {:induction false} Rule2LoopKeepsOrder(n: Net)
    requires Ordered(n)
    ensures Ordered(Rule2Loop(n)) && Rule2Loop(n).sorted == n.sorted
    decreases |Sourced(n.tensorAt)|
  {
    match FindMerge(n, 0)
    case None =>
    case Some((mm, k)) =>
      FindMergeSome(n, 0);
      MergeProgress(n, mm, k);
      MergeKeepsOrder(n, mm, k);
      Rule2LoopKeepsOrder(Merge(n, mm, k));
  }

  // ---------------------------------------------------------------------------------------
  // Rule 1

  /**
   * Operator side of removing a pair as `r` sees it: the consumers of `out2` read `in1` where
   * they read `out2`, and no other input, no output and no Transpose tag changes.
   */
  ghost predicate CutOps(n: Net, r: Net, in1: TensorId, out2: TensorId)
    requires out2 in n.tensorAt
  {
    var cs := n.tensorAt[out2].targets;
    && r.opAt.Keys == n.opAt.Keys
    && (forall c :: c in cs ==> c in n.opAt && r.opAt[c].inputs == Replace(n.opAt[c].inputs, out2, in1))
    && (forall a :: a in n.opAt && a !in cs ==> r.opAt[a].inputs == n.opAt[a].inputs)
    && (forall a :: a in n.opAt ==>
          r.opAt[a].outputs == n.opAt[a].outputs && r.opAt[a].kind.Transpose? == n.opAt[a].kind.Transpose?)
  }

  lemma CutHolds(n: Net, t1: OpId, t2: OpId)
    requires Closed(n) && t1 in n.opAt && PairFrom(n, t1) == Some(t2)
    ensures var in1, out1, out2 := n.opAt[t1].inputs[0], n.opAt[t1].outputs[0], n.opAt[t2].outputs[0];
            var r := EliminatePair(n, t1, t2);
            && CutOps(n, r, in1, out2) && ClearedSources(n, r, out1, out2)
            && r.ops == RemoveFirst(RemoveFirst(n.ops, t1), t2) && r.sorted == n.sorted
  {
    var in1, out1, out2 := n.opAt[t1].inputs[0], n.opAt[t1].outputs[0], n.opAt[t2].outputs[0];
    var r := EliminatePair(n, t1, t2);
    CutPairOps(n, t1, t2, in1, out1, out2);
    assert CutOps(n, r, in1, out2);
    CutPairTensors(n, t1, t2, in1, out1, out2);
    assert ClearedSources(n, r, out1, out2);
    var cs := n.tensorAt[out2].targets;
    var m := RewireAll(n, t1, t2, in1, out2, cs);
    RewireAllOps(n, t1, t2, in1, out2, cs);
    var m2 := RemoveTarget(ClearSource(ClearSource(m, out1), out2), in1, t1);
    assert m2.ops == n.ops && m2.sorted == n.sorted;
    assert r == DropOp(DropOp(DropTensor(DropTensor(m2, out1), out2), t1), t2);
  }

  /** Where a consumer reads `in1` after the cut, it read `out2` before. */
  lemma ReplacedInput(x: seq<TensorId>, out2: TensorId, in1: TensorId, t: TensorId)
    requires t in Replace(x, out2, in1) && t !in x
    ensures t == in1 && out2 in x
  {
    var j :| 0 <= j < |x| && Replace(x, out2, in1)[j] == t;
  }

  /** The operator at position `i` still reads only tensors made earlier, and not by the pair. */
  lemma CutReadsEarlierAt(n: Net, r: Net, t1: OpId, t2: OpId, in1: TensorId, out1: TensorId, out2: TensorId,
                          i1: nat, i2: nat, i: nat, t: TensorId)
    requires Ordered(n) && out2 in n.tensorAt && CutOps(n, r, in1, out2) && ClearedSources(n, r, out1, out2)
    requires i1 < i2 < |n.ops| && n.ops[i1] == t1 && n.ops[i2] == t2
    requires in1 in n.opAt[t1].inputs && n.tensorAt[out2].source == Some(t2)
    requires n.opAt[t1].kind.Transpose? && n.opAt[t2].kind.Transpose?
    requires n.tensorAt[out1].source == Some(t1)
    requires i < |n.ops| && n.ops[i] != t1 && n.ops[i] != t2
    requires t in r.opAt[n.ops[i]].inputs && r.tensorAt[t].source.Some?
    ensures r.tensorAt[t].source.value != t1 && r.tensorAt[t].source.value != t2
    ensures r.tensorAt[t].source.value in n.ops[..i]
  {
    var o := n.ops[i];
    assert o in n.ops && t1 in n.ops && t2 in n.ops;
    assert t != out1 && t != out2;
    if o in n.tensorAt[out2].targets && t !in n.opAt[o].inputs {
      ReplacedInput(n.opAt[o].inputs, out2, in1, t);
      var j2 := SourceBefore(n, i, out2);
      assert n.ops[j2] == n.ops[i2];
      var jp := SourceBefore(n, i1, in1);
      assert n.ops[jp] != n.ops[i1];
      assert n.ops[jp] != n.ops[i2];
      assert n.ops[jp] in n.ops[..i];
    } else {
      assert t in n.opAt[o].inputs;
      var jp := SourceBefore(n, i, t);
      assert n.ops[jp] in n.ops[..i];
      if r.tensorAt[t].source.value == t1 {
        OnlyOutput(n, t1, t, out1);
      }
      if r.tensorAt[t].source.value == t2 {
        OnlyOutput(n, t2, t, out2);
      }
    }
  }

  /** Every kept operator still reads only tensors made earlier, and not by the pair. */
  lemma CutReadsEarlier(n: Net, r: Net, t1: OpId, t2: OpId, in1: TensorId, out1: TensorId, out2: TensorId,
                        i1: nat, i2: nat)
    requires Ordered(n) && Closed(r) && out2 in n.tensorAt
    requires CutOps(n, r, in1, out2) && ClearedSources(n, r, out1, out2)
    requires i1 < i2 < |n.ops| && n.ops[i1] == t1 && n.ops[i2] == t2
    requires in1 in n.opAt[t1].inputs && n.tensorAt[out2].source == Some(t2)
    requires n.opAt[t1].kind.Transpose? && n.opAt[t2].kind.Transpose?
    requires n.tensorAt[out1].source == Some(t1)
    ensures ReadsEarlier(n.ops, r, t1, t2)
  {
    forall i, t ensures ReadsEarlierAt(n.ops, r, t1, t2, i, t) {
      if 0 <= i < |n.ops| && n.ops[i] != t1 && n.ops[i] != t2 && n.ops[i] in r.opAt
         && t in r.opAt[n.ops[i]].inputs && r.tensorAt[t].source.Some? {
        CutReadsEarlierAt(n, r, t1, t2, in1, out1, out2, i1, i2, i, t);
      }
    }
  }

  /** Erasing two operators from a list without repeats leaves the others, once each. */
  lemma DropTwo(xs: seq<OpId>, r: Net, t1: OpId, t2: OpId)
    requires Closed(r) && NoDups(xs) && ReadsEarlier(xs, r, t1, t2)
    requires r.ops == RemoveFirst(RemoveFirst(xs, t1), t2)
    ensures NoDups(r.ops) && ReadsEarlier(r.ops, r, t1, t2)
    ensures forall o :: o in r.ops ==> o in xs && o != t1 && o != t2
  {
    var ys := RemoveFirst(xs, t1);
    DropKeepsReadsEarlier(xs, t1, r, t1, t2);
    RemoveFirstNoDups(xs, t1);
    DropKeepsReadsEarlier(ys, t2, r, t1, t2);
    RemoveFirstNoDups(ys, t2);
  }

  /**
   * What a valid graph wired both ways says about a pair `t1`, `t2` found by the scan: both are
   * listed single-output Transposes, the second reads the first's output, and each makes its
   * output.
   */
  lemma PairShape(n: Net, t1: OpId, t2: OpId)
    requires Ordered(n) && CheckValid(n) && Wired(n)
    requires t1 in n.ops && PairFrom(n, t1) == Some(t2)
    ensures var x, y := n.opAt[t1], n.opAt[t2];
            && t2 in n.ops && t2 in n.opAt && x.kind.Transpose? && y.kind.Transpose? && |x.inputs| >= 1
            && x.outputs == [x.outputs[0]] && y.outputs == [y.outputs[0]]
            && x.outputs[0] in y.inputs && y.outputs[0] in n.tensorAt
            && n.tensorAt[x.outputs[0]].source == Some(t1) && n.tensorAt[y.outputs[0]].source == Some(t2)
  {
    var x, y := n.opAt[t1], n.opAt[t2];
    var out1, out2 := x.outputs[0], y.outputs[0];
    assert x.outputs == [out1] && y.outputs == [out2];
    CheckValidMeans(n);
    assert OpOk(n, t1) && out1 in n.tensors && TensorOk(n, out1);
    assert t2 in n.ops && t2 in n.tensorAt[out1].targets;
  }

  /**
   * Removing a pair from a valid graph wired both ways keeps the list in input order, keeps
   * sources matching outputs, and keeps `sorted`.
   */
  lemma EliminatePairKeepsOrder(n: Net, t1: OpId, t2: OpId)
    requires Ordered(n) && CheckValid(n) && Wired(n)
    requires t1 in n.ops && PairFrom(n, t1) == Some(t2)
    ensures Ordered(EliminatePair(n, t1, t2)) && EliminatePair(n, t1, t2).sorted == n.sorted
  {
    PairShape(n, t1, t2);
    var in1, out1, out2 := n.opAt[t1].inputs[0], n.opAt[t1].outputs[0], n.opAt[t2].outputs[0];
    CutHolds(n, t1, t2);
    CutPairKeepsClosed(n, t1, t2, in1, out1, out2);
    CutKeepsOrder(n, EliminatePair(n, t1, t2), t1, t2, in1, out1, out2);
  }

  /** The order argument of a pair removal, from the shape of the pair and of the result. */
  lemma CutKeepsOrder(n: Net, r: Net, t1: OpId, t2: OpId, in1: TensorId, out1: TensorId, out2: TensorId)
    requires Ordered(n) && Closed(r) && out2 in n.tensorAt
    requires CutOps(n, r, in1, out2) && ClearedSources(n, r, out1, out2)
    requires r.ops == RemoveFirst(RemoveFirst(n.ops, t1), t2)
    requires t1 in n.ops && t2 in n.ops && n.opAt[t1].kind.Transpose? && n.opAt[t2].kind.Transpose?
    requires in1 in n.opAt[t1].inputs && out1 in n.opAt[t2].inputs
    requires n.tensorAt[out1].source == Some(t1) && n.tensorAt[out2].source == Some(t2)
    ensures Ordered(r)
  {
    var i2 :| 0 <= i2 < |n.ops| && n.ops[i2] == t2;
    var i1 := SourceBefore(n, i2, out1);
    CutReadsEarlier(n, r, t1, t2, in1, out1, out2, i1, i2);
    DropTwo(n.ops, r, t1, t2);
    ReadsEarlierInOrder(r, t1, t2);
    KeptSourcesMatch(n, r, t1, t2, out1, out2);
  }

  /** One round of rule 1 on a valid graph wired both ways keeps the list in input order. */
  lemma Rule1OnceKeepsOrder(n: Net)
    requires Ordered(n) && CheckValid(n) && Wired(n)
    ensures Ordered(Rule1Once(n)) && Rule1Once(n).sorted == n.sorted
  {
    FindPairFinds(n, 0);
    match FindPair(n, 0)
    case None =>
    case Some((t1, t2)) =>
      EliminatePairKeepsOrder(n, t1, t2);
  }

  /**
   * `optimize` needs no new sort: on a valid graph wired both ways whose list is in input order,
   * the rewritten list is still in input order, `sorted` is as it was, and sorting it again
   * would keep the list as it is.
   */
  lemma OptimizeKeepsOrder(n: Net)
    requires Ordered(n) && CheckValid(n) && Wired(n)
    ensures var r := Optimize(n);
            && Ordered(r) && r.sorted == n.sorted
            && TopoSort(r.(sorted := false)) == (true, r.(sorted := true))
  {
    Rule1OnceKeepsOrder(n);
    Rule2LoopKeepsOrder(Rule1Once(n));
    var r := Optimize(n);
    SortKeepsOrderedList(r.(sorted := false));
  }
}
