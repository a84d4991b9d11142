/**
 * Rule 2 of `GraphObj::optimize` and the pass as a whole. A MatMul input produced by a Transpose
 * that swaps the last two axes is replaced by that Transpose's own input, and the MatMul's flag
 * for that side is set to true (not toggled); the Transpose leaves the operator list, and the
 * intermediate tensor loses its source and leaves the tensor list once nothing reads it. The
 * scan restarts after every merge and stops when no listed MatMul has such an input.
 */
module Fusion {
  import opened Common
  import opened Net
  import opened Permute
  import opened Wiring
  import opened Edits
  import opened Pairs

  /** Input `k` of `mm` is made by a Transpose that swaps the last two axes and has an input. */
  function Fusable(n: Net, mm: OpId, k: nat): bool
    requires Closed(n) && mm in n.opAt
  {
    var x := n.opAt[mm];
    if !x.kind.MatMul? || k >= |x.inputs| then false
    else
      match n.tensorAt[x.inputs[k]].source
      case None => false
      case Some(s) =>
        var y := n.opAt[s];
        y.kind.Transpose? && ShouldSwap(y.kind.perm) && |y.inputs| >= 1
  }

  /** No listed operator has a fusable input 0 or 1: the state rule 2 stops in. */
  ghost predicate NoFusable(n: Net)
    requires Closed(n)
  {
    forall j, k :: 0 <= j < |n.ops| && 0 <= k < 2 ==> !Fusable(n, n.ops[j], k)
  }

  /** `mergeTransposeIntoMatmul(mm, k, k == 0)` once it has decided to merge. */
  function Merge(n: Net, mm: OpId, k: nat): Net
    requires Closed(n) && mm in n.opAt && Fusable(n, mm, k)
  {
    var input := n.opAt[mm].inputs[k];
    var s := n.tensorAt[input].source.value;
    Fuse(n, mm, k, input, s, n.opAt[s].inputs[0])
  }

  /**
   * The edits of a merge: input `k` of `mm` becomes `tin`, the flag is set, the neighbour caches
   * are relinked, `tin` swaps the Transpose `s` for `mm` among its targets, `input` loses `mm`
   * and its source, and then `input` (if nothing reads it) and `s` leave the lists.
   */
  function Fuse(n: Net, mm: OpId, k: nat, input: TensorId, s: OpId, tin: TensorId): Net
    requires SourcesKnown(n) && mm in n.opAt && n.opAt[mm].kind.MatMul? && k < |n.opAt[mm].inputs|
    requires input in n.tensorAt && tin in n.tensorAt
  {
    var m := Retarget(Rewire(n, mm, k, s, tin), mm, input, s, tin);
    var m' := if |m.tensorAt[input].targets| == 0 then DropTensor(m, input) else m;
    DropOp(m', s)
  }

  /** The operator-side edits of a merge: the input slot, the flag and the neighbour caches. */
  function Rewire(n: Net, mm: OpId, k: nat, s: OpId, tin: TensorId): (r: Net)
    requires SourcesKnown(n) && mm in n.opAt && n.opAt[mm].kind.MatMul? && k < |n.opAt[mm].inputs|
    requires tin in n.tensorAt
    ensures r.tensorAt == n.tensorAt && r.tensors == n.tensors && r.ops == n.ops && r.sorted == n.sorted
    ensures r.opAt.Keys == n.opAt.Keys
  {
    Relink(SetTrans(SetInput(n, mm, k, tin), mm, k), s, s, tin, mm)
  }

  /** The tensor-side edits of a merge: the targets of `tin` and `input`, and `input`'s source. */
  function Retarget(n: Net, mm: OpId, input: TensorId, s: OpId, tin: TensorId): (r: Net)
    requires input in n.tensorAt && tin in n.tensorAt
    ensures r.opAt == n.opAt && r.tensors == n.tensors && r.ops == n.ops && r.sorted == n.sorted
    ensures r.tensorAt.Keys == n.tensorAt.Keys
  {
    ClearSource(RemoveTarget(AddTarget(RemoveTarget(n, tin, s), tin, mm), input, mm), input)
  }

  /** The scan of rule 2: the first listed MatMul, from position `i` on, with a fusable input. */
  function FindMerge(n: Net, i: nat): Option<(OpId, nat)>
    requires Closed(n) && i <= |n.ops|
    decreases |n.ops| - i
  {
    if i == |n.ops| then None
    else if Fusable(n, n.ops[i], 0) then Some((n.ops[i], 0))
    else if Fusable(n, n.ops[i], 1) then Some((n.ops[i], 1))
    else FindMerge(n, i + 1)
  }

  /** The tensors that have a source; every merge takes one away, so rule 2 ends. */
  ghost function Sourced(ts: map<TensorId, Tensor>): set<TensorId> {
    set t | t in ts && ts[t].source.Some?
  }

  /** The rule-2 loop: merge the first fusable input found and scan again, until none is. */
  function Rule2Loop(n: Net): Net
    requires Closed(n)
    decreases |Sourced(n.tensorAt)|
  {
    match FindMerge(n, 0)
    case None => n
    case Some((mm, k)) =>
      FindMergeSome(n, 0);
      MergeProgress(n, mm, k);
      Rule2Loop(Merge(n, mm, k))
  }

  /** One pass of the rule-2 scan: the first fusable input found is merged, if any. */
  function Rule2Step(n: Net): Net
    requires Closed(n)
  {
    match FindMerge(n, 0)
    case None => n
    case Some((mm, k)) =>
      FindMergeSome(n, 0);
      Merge(n, mm, k)
  }

  /** `optimize`: rule 1 once, then rule 2 until no MatMul input can be fused. */
  function Optimize(n: Net): Net
    requires Closed(n)
  {
    Rule1OnceKeepsClosed(n);
    Rule2Loop(Rule1Once(n))
  }

  // ---------------------------------------------------------------------------------------
  // The scan

  /** The scan finds nothing exactly when no listed operator from `i` on has a fusable input. */
  lemma {:induction false} FindMergeNone(n: Net, i: nat)
    requires Closed(n) && i <= |n.ops|
    ensures FindMerge(n, i).None? <==> forall j, k :: i <= j < |n.ops| && 0 <= k < 2 ==> !Fusable(n, n.ops[j], k)
    decreases |n.ops| - i
  {
    if i < |n.ops| && !Fusable(n, n.ops[i], 0) && !Fusable(n, n.ops[i], 1) {
      FindMergeNone(n, i + 1);
      if FindMerge(n, i + 1).None? {
        forall j, k | i <= j < |n.ops| && 0 <= k < 2 ensures !Fusable(n, n.ops[j], k) {
          if j > i {
          }
        }
      }
    }
  }

  /**
   * What the scan finds is a fusable input of a listed operator: the first such operator, and
   * input 1 only when input 0 is not fusable.
   */
  lemma {:induction false} FindMergeSome(n: Net, i: nat)
    requires Closed(n) && i <= |n.ops|
    ensures var r := FindMerge(n, i);
            r.Some? ==>
              && r.value.0 in n.opAt && r.value.1 < 2 && Fusable(n, r.value.0, r.value.1)
              && (r.value.1 == 1 ==> !Fusable(n, r.value.0, 0))
              && exists j :: i <= j < |n.ops| && n.ops[j] == r.value.0
                   && forall j' :: i <= j' < j ==> !Fusable(n, n.ops[j'], 0) && !Fusable(n, n.ops[j'], 1)
    decreases |n.ops| - i
  {
    if i < |n.ops| && !Fusable(n, n.ops[i], 0) && !Fusable(n, n.ops[i], 1) {
      FindMergeSome(n, i + 1);
    }
  }

  // ---------------------------------------------------------------------------------------
  // What a merge does

  /**
   * Operator side: `mm` reads `tin` at position `k` and has the flag for that side set, keeping
   * the other flag; no other operator's inputs or kind, and no outputs, change.
   */
  lemma RewireOps(n: Net, mm: OpId, k: nat, s: OpId, tin: TensorId)
    requires SourcesKnown(n) && mm in n.opAt && n.opAt[mm].kind.MatMul? && k < |n.opAt[mm].inputs|
    requires tin in n.tensorAt
    ensures var r, x := Rewire(n, mm, k, s, tin), n.opAt[mm];
            && r.opAt[mm].inputs == x.inputs[k := tin]
            && r.opAt[mm].kind == (if k == 0 then MatMul(true, x.kind.transB) else MatMul(x.kind.transA, true))
            && (forall a :: a in n.opAt && a != mm ==> r.opAt[a].inputs == n.opAt[a].inputs && r.opAt[a].kind == n.opAt[a].kind)
            && (forall a :: a in n.opAt ==> r.opAt[a].outputs == n.opAt[a].outputs)
  {
    var m1 := SetTrans(SetInput(n, mm, k, tin), mm, k);
    SetInputTransOps(n, mm, k, tin);
    var r := Relink(m1, s, s, tin, mm);
    assert r == Rewire(n, mm, k, s, tin);
    assert OnlyNeighbours(m1, r);
  }

  /** The slot and flag edits of a merge, operator by operator. */
  lemma SetInputTransOps(n: Net, mm: OpId, k: nat, tin: TensorId)
    requires mm in n.opAt && n.opAt[mm].kind.MatMul? && k < |n.opAt[mm].inputs|
    ensures var m1, x := SetTrans(SetInput(n, mm, k, tin), mm, k), n.opAt[mm];
            && m1.opAt.Keys == n.opAt.Keys
            && m1.opAt[mm].inputs == x.inputs[k := tin]
            && m1.opAt[mm].kind == (if k == 0 then MatMul(true, x.kind.transB) else MatMul(x.kind.transA, true))
            && m1.opAt[mm].outputs == x.outputs
            && (forall a :: a in n.opAt && a != mm ==> m1.opAt[a] == n.opAt[a])
  {
  }

  /**
   * Neighbour side: `mm` trades `s` for the source of `tin` among its predecessors, and that
   * source trades `s` for `mm` among its successors; no other cache changes.
   */
  lemma FuseNeighbours(n: Net, mm: OpId, k: nat, input: TensorId, s: OpId, tin: TensorId)
    requires SourcesKnown(n) && mm in n.opAt && n.opAt[mm].kind.MatMul? && k < |n.opAt[mm].inputs|
    requires input in n.tensorAt && tin in n.tensorAt
    ensures var r := Fuse(n, mm, k, input, s, tin);
            && r.opAt.Keys == n.opAt.Keys
            && forall a :: a in n.opAt ==>
                 && r.opAt[a].preds
                    == (if a == mm then (n.opAt[a].preds - {s}) + SourceSet(n, tin) else n.opAt[a].preds)
                 && r.opAt[a].succs
                    == (if n.tensorAt[tin].source == Some(a) then (n.opAt[a].succs - {s}) + {mm}
                        else n.opAt[a].succs)
  {
    var m1 := SetTrans(SetInput(n, mm, k, tin), mm, k);
    assert forall a :: a in n.opAt ==> m1.opAt[a].preds == n.opAt[a].preds && m1.opAt[a].succs == n.opAt[a].succs;
    assert SourceSet(m1, tin) == SourceSet(n, tin);
  }

  lemma RewireKeepsClosed(n: Net, mm: OpId, k: nat, s: OpId, tin: TensorId)
    requires Closed(n) && mm in n.opAt && n.opAt[mm].kind.MatMul? && k < |n.opAt[mm].inputs|
    requires tin in n.tensorAt
    ensures Closed(Rewire(n, mm, k, s, tin))
  {
    var m0 := SetInput(n, mm, k, tin);
    SetInputKeepsClosed(n, mm, k, tin);
    var m1 := SetTrans(m0, mm, k);
    SetTransKeepsRefs(m0, mm, k);
    SameRefsKeepClosed(m0, m1);
    OnlyNeighboursKeepClosed(m1, Relink(m1, s, s, tin, mm));
  }

  /**
   * Tensor side: `input` loses its source and `mm` as a target, `tin` swaps `s` for `mm` among
   * its targets, no other tensor changes, and no shape or fuid changes.
   */
  lemma RetargetTensors(n: Net, mm: OpId, input: TensorId, s: OpId, tin: TensorId)
    requires input in n.tensorAt && tin in n.tensorAt
    ensures var r := Retarget(n, mm, input, s, tin);
            && r.tensorAt[input].source == None
            && (forall t :: t in n.tensorAt && t != input ==> r.tensorAt[t].source == n.tensorAt[t].source)
            && (forall t :: t in n.tensorAt ==> r.tensorAt[t].shape == n.tensorAt[t].shape && r.tensorAt[t].fuid == n.tensorAt[t].fuid)
            && (tin != input ==>
                  && r.tensorAt[tin].targets == RemoveAll(n.tensorAt[tin].targets, s) + [mm]
                  && r.tensorAt[input].targets == RemoveAll(n.tensorAt[input].targets, mm))
            && (forall t :: t in n.tensorAt && t != input && t != tin ==> r.tensorAt[t] == n.tensorAt[t])
  {
    var a := RemoveTarget(n, tin, s);
    var b := AddTarget(a, tin, mm);
    var c := RemoveTarget(b, input, mm);
    RetargetSteps(n.tensorAt, a.tensorAt, b.tensorAt, c.tensorAt, ClearSource(c, input).tensorAt, input, s, tin, mm);
  }

  /** The four tensor-side steps of a merge, as updates of the tensor map. */
  lemma RetargetSteps(m0: map<TensorId, Tensor>, a: map<TensorId, Tensor>, b: map<TensorId, Tensor>,
                      c: map<TensorId, Tensor>, d: map<TensorId, Tensor>,
                      input: TensorId, s: OpId, tin: TensorId, mm: OpId)
    requires input in m0 && tin in m0
    requires a == m0[tin := m0[tin].(targets := RemoveAll(m0[tin].targets, s))]
    requires b == a[tin := a[tin].(targets := a[tin].targets + [mm])]
    requires c == b[input := b[input].(targets := RemoveAll(b[input].targets, mm))]
    requires d == c[input := c[input].(source := None)]
    ensures && d[input].source == None
            && (forall t :: t in m0 && t != input ==> d[t].source == m0[t].source)
            && (forall t :: t in m0 ==> d[t].shape == m0[t].shape && d[t].fuid == m0[t].fuid)
            && (tin != input ==>
                  && d[tin].targets == RemoveAll(m0[tin].targets, s) + [mm]
                  && d[input].targets == RemoveAll(m0[input].targets, mm))
            && (forall t :: t in m0 && t != input && t != tin ==> d[t] == m0[t])
  {
  }

  lemma RetargetKeepsClosed(n: Net, mm: OpId, input: TensorId, s: OpId, tin: TensorId)
    requires Closed(n) && mm in n.opAt && input in n.tensorAt && tin in n.tensorAt
    ensures Closed(Retarget(n, mm, input, s, tin))
  {
    var a := RemoveTarget(n, tin, s);
    RemoveTargetKeepsClosed(n, tin, s);
    var b := AddTarget(a, tin, mm);
    AddTargetKeepsClosed(a, tin, mm);
    var c := RemoveTarget(b, input, mm);
    RemoveTargetKeepsClosed(b, input, mm);
    ClearSourceKeepsClosed(c, input);
  }

  /**
   * List side, for lists without repeats: exactly the Transpose leaves the operator list, and
   * `input` leaves the tensor list exactly when nothing reads it any more.
   */
  lemma FuseLists(n: Net, mm: OpId, k: nat, input: TensorId, s: OpId, tin: TensorId)
    requires SourcesKnown(n) && mm in n.opAt && n.opAt[mm].kind.MatMul? && k < |n.opAt[mm].inputs|
    requires input in n.tensorAt && tin in n.tensorAt
    requires NoDups(n.ops) && NoDups(n.tensors)
    ensures var r := Fuse(n, mm, k, input, s, tin);
            && r.sorted == n.sorted
            && NoDups(r.ops) && NoDups(r.tensors)
            && (forall o :: o in r.ops <==> o in n.ops && o != s)
            && (forall t :: t in r.tensors <==> t in n.tensors && (t != input || r.tensorAt[input].targets != []))
  {
    RemoveFirstNoDups(n.tensors, input);
    RemoveFirstNoDups(n.ops, s);
  }

  lemma FuseKeepsClosed(n: Net, mm: OpId, k: nat, input: TensorId, s: OpId, tin: TensorId)
    requires Closed(n) && mm in n.opAt && n.opAt[mm].kind.MatMul? && k < |n.opAt[mm].inputs|
    requires input in n.tensorAt && tin in n.tensorAt
    ensures Closed(Fuse(n, mm, k, input, s, tin))
  {
    var m := Rewire(n, mm, k, s, tin);
    RewireKeepsClosed(n, mm, k, s, tin);
    var m' := Retarget(m, mm, input, s, tin);
    RetargetKeepsClosed(m, mm, input, s, tin);
    DropsKeepClosed(m', input, s);
    DropsKeepClosed(DropTensor(m', input), input, s);
  }

  /** A merge keeps the state closed and takes the source of exactly one tensor away. */
  lemma MergeProgress(n: Net, mm: OpId, k: nat)
    requires Closed(n) && mm in n.opAt && Fusable(n, mm, k)
    ensures Closed(Merge(n, mm, k))
    ensures Sourced(Merge(n, mm, k).tensorAt) + {n.opAt[mm].inputs[k]} == Sourced(n.tensorAt)
    ensures |Sourced(Merge(n, mm, k).tensorAt)| < |Sourced(n.tensorAt)|
  {
    var input := n.opAt[mm].inputs[k];
    var s := n.tensorAt[input].source.value;
    var tin := n.opAt[s].inputs[0];
    FuseKeepsClosed(n, mm, k, input, s, tin);
    var m := Rewire(n, mm, k, s, tin);
    RetargetTensors(m, mm, input, s, tin);
    var m' := Retarget(m, mm, input, s, tin);
    assert Merge(n, mm, k).tensorAt == m'.tensorAt;
    SourceCleared(n.tensorAt, m'.tensorAt, input);
  }

  /** Clearing one tensor's source, and no other's, takes exactly that tensor from `Sourced`. */
  lemma SourceCleared(ts: map<TensorId, Tensor>, ts': map<TensorId, Tensor>, x: TensorId)
    requires ts'.Keys == ts.Keys && x in ts && ts[x].source.Some? && ts'[x].source.None?
    requires forall t :: t in ts && t != x ==> ts'[t].source == ts[t].source
    ensures Sourced(ts') + {x} == Sourced(ts) && |Sourced(ts')| < |Sourced(ts)|
  {
    assert x !in Sourced(ts');
    assert Sourced(ts') + {x} == Sourced(ts);
  }

  // ---------------------------------------------------------------------------------------
  // The loop and the pass

  /** Rule 2 stops only once no listed operator has a fusable input, and keeps the state closed. */
  lemma {:induction false} Rule2LoopDone(n: Net)
    requires Closed(n)
    ensures Closed(Rule2Loop(n)) && NoFusable(Rule2Loop(n))
    decreases |Sourced(n.tensorAt)|
  {
    FindMergeNone(n, 0);
    match FindMerge(n, 0)
    case None =>
    case Some((mm, k)) =>
      FindMergeSome(n, 0);
      MergeProgress(n, mm, k);
      Rule2LoopDone(Merge(n, mm, k));
  }

  /**
   * The loop is the pass repeated: a pass that merges keeps the state closed, takes a source
   * away and leaves the loop's outcome alone; a pass that finds nothing ends the loop.
   */
  lemma Rule2StepProgress(n: Net)
    requires Closed(n)
    ensures Closed(Rule2Step(n))
    ensures FindMerge(n, 0).None? ==> Rule2Step(n) == n && Rule2Loop(n) == n
    ensures FindMerge(n, 0).Some? ==>
              && |Sourced(Rule2Step(n).tensorAt)| < |Sourced(n.tensorAt)|
              && Rule2Loop(Rule2Step(n)) == Rule2Loop(n)
  {
    match FindMerge(n, 0)
    case None =>
    case Some((mm, k)) =>
      FindMergeSome(n, 0);
      MergeProgress(n, mm, k);
  }

  /** On a state with nothing to fuse rule 2 changes nothing. */
  lemma Rule2LoopIdle(n: Net)
    requires Closed(n) && NoFusable(n)
    ensures Rule2Loop(n) == n
  {
    FindMergeNone(n, 0);
  }

  /** Rule 2 keeps every record and only ever takes operators out of the list. */
  lemma {:induction false} Rule2LoopShrinks(n: Net)
    requires Closed(n)
    ensures var r := Rule2Loop(n);
            && r.tensorAt.Keys == n.tensorAt.Keys && r.opAt.Keys == n.opAt.Keys
            && (forall o :: o in r.ops ==> o in n.ops)
            && (forall t :: t in r.tensors ==> t in n.tensors)
    decreases |Sourced(n.tensorAt)|
  {
    match FindMerge(n, 0)
    case None =>
    case Some((mm, k)) =>
      FindMergeSome(n, 0);
      MergeProgress(n, mm, k);
      MergeShrinks(n, mm, k);
      Rule2LoopShrinks(Merge(n, mm, k));
  }

  /** A merge keeps every record and takes nothing new into the lists. */
  lemma MergeShrinks(n: Net, mm: OpId, k: nat)
    requires Closed(n) && mm in n.opAt && Fusable(n, mm, k)
    ensures var r := Merge(n, mm, k);
            && r.tensorAt.Keys == n.tensorAt.Keys && r.opAt.Keys == n.opAt.Keys
            && (forall o :: o in r.ops ==> o in n.ops)
            && (forall t :: t in r.tensors ==> t in n.tensors)
  {
    var input := n.opAt[mm].inputs[k];
    var s := n.tensorAt[input].source.value;
    var tin := n.opAt[s].inputs[0];
    var m := Retarget(Rewire(n, mm, k, s, tin), mm, input, s, tin);
    var m' := if |m.tensorAt[input].targets| == 0 then DropTensor(m, input) else m;
    assert Merge(n, mm, k) == DropOp(m', s);
  }

  /**
   * After `optimize` no listed MatMul has an input made by a last-two-axes Transpose, and the
   * state is closed; a state with no pair to remove and nothing to fuse is left as it was.
   */
  lemma OptimizeDone(n: Net)
    requires Closed(n)
    ensures Closed(Optimize(n)) && NoFusable(Optimize(n))
    ensures (forall j :: 0 <= j < |n.ops| ==> PairFrom(n, n.ops[j]).None?) && NoFusable(n) ==> Optimize(n) == n
  {
    Rule1OnceKeepsClosed(n);
    Rule2LoopDone(Rule1Once(n));
    if (forall j :: 0 <= j < |n.ops| ==> PairFrom(n, n.ops[j]).None?) && NoFusable(n) {
      Rule2LoopIdle(n);
    }
  }
}
