/**
 * The state of a `GraphObj` as a value. Tensors and operators are named by integer IDs; the two
 * maps play the part of the heap of `TensorObj` / `OperatorObj` records, and `tensors` / `ops`
 * are the graph's own lists. A record stays in its map after the graph drops it from a list, as
 * an object outlives its removal while something still points to it.
 */
module Net {
  import opened Common

  type TensorId = nat
  type OpId = nat

  /** The operator type tag with the attributes the rewrite rules and shape inference read. */
  datatype OpKind =
    | Transpose(perm: seq<int>)
    | MatMul(transA: bool, transB: bool)
    | Concat(axis: nat)
    | Other(name: string)

  datatype Operator = Operator(
    kind: OpKind,
    inputs: seq<TensorId>,
    outputs: seq<TensorId>,
    preds: set<OpId>,
    succs: set<OpId>)

  /** `blob` is the bound storage: the arena base plus the tensor's offset, once planned. */
  datatype Tensor = Tensor(
    fuid: int,
    shape: Shape,
    source: Option<OpId>,
    targets: seq<OpId>,
    blob: Option<int>)

  datatype Net = Net(
    tensors: seq<TensorId>,
    ops: seq<OpId>,
    tensorAt: map<TensorId, Tensor>,
    opAt: map<OpId, Operator>,
    sorted: bool)

  const EmptyNet: Net := Net([], [], map[], map[], false)

  /** The graph's lists name records. */
  ghost predicate ListsKnown(n: Net) {
    && (forall t :: t in n.tensors ==> t in n.tensorAt)
    && (forall o :: o in n.ops ==> o in n.opAt)
  }

  /** Every tensor's source names a record. */
  ghost predicate SourcesKnown(n: Net) {
    forall t :: t in n.tensorAt && n.tensorAt[t].source.Some? ==> n.tensorAt[t].source.value in n.opAt
  }

  /** Every tensor's targets name records. */
  ghost predicate TargetsKnown(n: Net) {
    forall t, x :: t in n.tensorAt && x in n.tensorAt[t].targets ==> x in n.opAt
  }

  ghost predicate OpClosed(n: Net, x: Operator) {
    && (forall t :: t in x.inputs ==> t in n.tensorAt)
    && (forall t :: t in x.outputs ==> t in n.tensorAt)
  }

  /** Every operator's tensors name records. */
  ghost predicate OpRefsKnown(n: Net) {
    forall o :: o in n.opAt ==> OpClosed(n, n.opAt[o])
  }

  /**
   * Every ID the state looks up names a record: no list entry, source, target, input or output
   * dangles. The neighbour caches are deliberately left out: `checkValid` judges them, and the
   * rewrites of `optimize` can leave them naming removed operators (see `Symmetric` and `CheckValid`).
   */
  ghost predicate Closed(n: Net) {
    ListsKnown(n) && SourcesKnown(n) && TargetsKnown(n) && OpRefsKnown(n)
  }

  /**
   * The predecessor and successor caches of the listed operators agree: `b` succeeds `a` exactly
   * when `a` precedes `b`.
   */
  ghost predicate Symmetric(n: Net) {
    forall a, b :: a in n.ops && b in n.ops && a in n.opAt && b in n.opAt ==>
      (b in n.opAt[a].succs <==> a in n.opAt[b].preds)
  }

  // ---------------------------------------------------------------------------------------
  // checkValid

  /** A listed tensor is produced or consumed, and only by listed operators. */
  function TensorOk(n: Net, t: TensorId): bool
    requires t in n.tensorAt
  {
    var x := n.tensorAt[t];
    && !(|x.targets| == 0 && x.source.None?)
    && (forall o :: o in x.targets ==> o in n.ops)
    && !(x.source.Some? && x.source.value !in n.ops)
  }

  /** A listed operator's tensors are listed, and so are its neighbours. */
  function OpOk(n: Net, o: OpId): bool
    requires o in n.opAt
  {
    var x := n.opAt[o];
    && (forall t :: t in x.inputs ==> t in n.tensors)
    && (forall t :: t in x.outputs ==> t in n.tensors)
    && (forall p :: p in x.preds ==> p in n.ops)
    && (forall s :: s in x.succs ==> s in n.ops)
  }

  /** The fuid loop of `checkValid`: no fuid of `ts` is in `seen` or occurs twice in `ts`. */
  function FuidsUnseen(n: Net, ts: seq<TensorId>, seen: set<int>): bool
    requires forall t :: t in ts ==> t in n.tensorAt
  {
    if ts == [] then true
    else
      var f := n.tensorAt[ts[0]].fuid;
      f !in seen && FuidsUnseen(n, ts[1..], seen + {f})
  }

  /** `checkValid`: true where none of its assertions fails. */
  function CheckValid(n: Net): bool
    requires Closed(n)
  {
    && (forall t :: t in n.tensors ==> TensorOk(n, t))
    && (forall o :: o in n.ops ==> OpOk(n, o))
    && FuidsUnseen(n, n.tensors, {})
  }

  /**
   * A tensor names a listed operator as its source exactly when that operator lists it among
   * its outputs: the source is the single producer.
   */
  ghost predicate SourcesMatch(n: Net) {
    forall o, t :: o in n.ops && o in n.opAt && t in n.tensorAt ==>
      (n.tensorAt[t].source == Some(o) <==> t in n.opAt[o].outputs)
  }

  /** No two listed tensors share a fuid. */
  ghost predicate DistinctFuids(n: Net)
    requires Closed(n)
  {
    forall i, j :: 0 <= i < j < |n.tensors| ==> n.tensorAt[n.tensors[i]].fuid != n.tensorAt[n.tensors[j]].fuid
  }

  ghost predicate DistinctFuidsIn(n: Net, ts: seq<TensorId>)
    requires forall t :: t in ts ==> t in n.tensorAt
  {
    forall i, j :: 0 <= i < j < |ts| ==> n.tensorAt[ts[i]].fuid != n.tensorAt[ts[j]].fuid
  }

  /** The set-based loop decides pairwise distinctness. */
  lemma {:induction false} FuidsUnseenMeansDistinct(n: Net, ts: seq<TensorId>, seen: set<int>)
    requires forall t :: t in ts ==> t in n.tensorAt
    ensures FuidsUnseen(n, ts, seen) <==>
              (forall t :: t in ts ==> n.tensorAt[t].fuid !in seen) && DistinctFuidsIn(n, ts)
    decreases |ts|
  {
    if ts != [] {
      var f := n.tensorAt[ts[0]].fuid;
      FuidsUnseenMeansDistinct(n, ts[1..], seen + {f});
      if (forall t :: t in ts ==> n.tensorAt[t].fuid !in seen) && DistinctFuidsIn(n, ts) {
        forall t | t in ts[1..] ensures n.tensorAt[t].fuid !in seen + {f} {
          var j :| 0 < j < |ts| && ts[j] == t;
          assert ts[j] in ts;
        }
        forall i, j | 0 <= i < j < |ts[1..]|
          ensures n.tensorAt[ts[1..][i]].fuid != n.tensorAt[ts[1..][j]].fuid
        {
          assert ts[1..][i] == ts[i + 1] && ts[1..][j] == ts[j + 1];
        }
      }
      if FuidsUnseen(n, ts, seen) {
        forall i, j | 0 <= i < j < |ts| ensures n.tensorAt[ts[i]].fuid != n.tensorAt[ts[j]].fuid {
          if i == 0 {
            assert ts[j] == ts[1..][j - 1] && ts[j] in ts[1..];
          } else {
            assert ts[i] == ts[1..][i - 1] && ts[j] == ts[1..][j - 1];
          }
        }
      }
    }
  }

  /**
   * `checkValid` holds exactly when every listed tensor and operator is sound and the listed
   * tensors' fuids are pairwise distinct.
   */
  lemma CheckValidMeans(n: Net)
    requires Closed(n)
    ensures CheckValid(n) <==>
              && (forall t :: t in n.tensors ==> TensorOk(n, t))
              && (forall o :: o in n.ops ==> OpOk(n, o))
              && DistinctFuids(n)
  {
    FuidsUnseenMeansDistinct(n, n.tensors, {});
  }

  // ---------------------------------------------------------------------------------------
  // getTensor

  /** `getTensor(fuid)`: the first listed tensor with that fuid, from position `i` on. */
  function GetTensorFrom(n: Net, fuid: int, i: nat): (r: Option<TensorId>)
    requires Closed(n) && i <= |n.tensors|
    decreases |n.tensors| - i
  {
    if i == |n.tensors| then None
    else if n.tensorAt[n.tensors[i]].fuid == fuid then Some(n.tensors[i])
    else GetTensorFrom(n, fuid, i + 1)
  }

  function GetTensor(n: Net, fuid: int): Option<TensorId>
    requires Closed(n)
  {
    GetTensorFrom(n, fuid, 0)
  }

  /**
   * `getTensor` finds the first listed tensor with the fuid, and finds nothing exactly when no
   * listed tensor has it.
   */
  lemma {:induction false} GetTensorFromFinds(n: Net, fuid: int, i: nat)
    requires Closed(n) && i <= |n.tensors|
    ensures var r := GetTensorFrom(n, fuid, i);
            && (r.None? <==> forall k :: i <= k < |n.tensors| ==> n.tensorAt[n.tensors[k]].fuid != fuid)
            && (r.Some? ==> exists k :: i <= k < |n.tensors| && n.tensors[k] == r.value
                             && n.tensorAt[r.value].fuid == fuid
                             && forall j :: i <= j < k ==> n.tensorAt[n.tensors[j]].fuid != fuid)
    decreases |n.tensors| - i
  {
    if i < |n.tensors| && n.tensorAt[n.tensors[i]].fuid != fuid {
      GetTensorFromFinds(n, fuid, i + 1);
    }
  }

  /** With distinct fuids, looking a listed tensor up by its fuid gives back that tensor. */
  lemma GetTensorOwnFuid(n: Net, k: nat)
    requires Closed(n) && DistinctFuids(n) && k < |n.tensors|
    ensures GetTensor(n, n.tensorAt[n.tensors[k]].fuid) == Some(n.tensors[k])
  {
    var fuid := n.tensorAt[n.tensors[k]].fuid;
    GetTensorFromFinds(n, fuid, 0);
    var r := GetTensor(n, fuid);
    var k' :| 0 <= k' < |n.tensors| && n.tensors[k'] == r.value && n.tensorAt[r.value].fuid == fuid
              && forall j :: 0 <= j < k' ==> n.tensorAt[n.tensors[j]].fuid != fuid;
    assert k' == k;
  }
}
