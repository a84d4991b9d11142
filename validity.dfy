/**
 * What the rewrites of `GraphObj::optimize` do to `checkValid` and to the neighbour caches.
 * Neither rule promises to keep a valid graph valid in every case: rule 2 leaves other readers
 * of the removed Transpose's output naming it as a predecessor, and rule 1 updates the first
 * input's source only while rewiring consumers of the second output, so with no consumer that
 * source keeps the removed Transpose as a successor. Both are shown on small graphs below. Where
 * the graph is wired as `addOperatorAndConnect` wires it and the rewritten Transposes exchange
 * tensors only with the operators the rule relinks, each rule keeps the graph valid and keeps its
 * caches symmetric.
 */
module Validity {
  import opened Common
  import opened Net
  import opened Permute
  import opened Wiring
  import opened Edits
  import opened Pairs
  import opened Fusion

  /**
   * The listed records agree with each other: a listed operator reads a listed tensor exactly
   * when it is among the tensor's targets, and writes it exactly when it is the tensor's source.
   */
  ghost predicate Wired(n: Net) {
    && (forall a, t :: a in n.ops && t in n.tensors && a in n.opAt && t in n.tensorAt ==>
          (t in n.opAt[a].inputs <==> a in n.tensorAt[t].targets))
    && (forall a, t :: a in n.ops && t in n.tensors && a in n.opAt && t in n.tensorAt ==>
          (t in n.opAt[a].outputs <==> n.tensorAt[t].source == Some(a)))
  }

  // ---------------------------------------------------------------------------------------
  // Two graphs the rules leave invalid

  /**
   * A Transpose (operator 0) swapping a 2-by-3 input (tensor 0) into tensor 1, which a MatMul
   * (operator 1) and a Relu (operator 2) both read.
   */
  function SharedNet(): Net {
    Net([0, 1, 2, 3, 4], [0, 1, 2],
        map[0 := Tensor(0, [2, 3], None, [0], None),
            1 := Tensor(1, [3, 2], Some(0), [1, 2], None),
            2 := Tensor(2, [2, 4], None, [1], None),
            3 := Tensor(3, [3, 4], Some(1), [], None),
            4 := Tensor(4, [3, 2], Some(2), [], None)],
        map[0 := Operator(Transpose([1, 0]), [0], [1], {}, {1, 2}),
            1 := Operator(MatMul(false, false), [1, 2], [3], {0}, {}),
            2 := Operator(Other("Relu"), [1], [4], {0}, {})],
        true)
  }

  /** Each listed tensor has its position in the list as fuid. */
  ghost predicate FuidsArePositions(n: Net)
    requires ListsKnown(n)
  {
    forall i :: 0 <= i < |n.tensors| ==> n.tensorAt[n.tensors[i]].fuid == i
  }

  /**
   * A graph whose tensors are numbered `0 .. nt - 1` and operators `0 .. no - 1` is valid,
   * wired and symmetric when each tensor, operator and pair of them is.
   */
  ghost predicate NumberedRecords(n: Net, nt: int, no: int) {
    && (forall t :: t in n.tensors ==> 0 <= t < nt)
    && (forall a :: a in n.ops ==> 0 <= a < no)
    && (forall t :: 0 <= t < nt ==> t in n.tensorAt && TensorOk(n, t))
    && (forall a :: 0 <= a < no ==> a in n.opAt && OpOk(n, a))
  }

  ghost predicate NumberedEdges(n: Net, nt: int, no: int)
    requires forall t :: 0 <= t < nt ==> t in n.tensorAt
    requires forall a :: 0 <= a < no ==> a in n.opAt
  {
    && (forall t, a :: 0 <= t < nt && 0 <= a < no ==>
          && (t in n.opAt[a].inputs <==> a in n.tensorAt[t].targets)
          && (t in n.opAt[a].outputs <==> n.tensorAt[t].source == Some(a)))
    && (forall a, b :: 0 <= a < no && 0 <= b < no ==> (b in n.opAt[a].succs <==> a in n.opAt[b].preds))
  }

  lemma NumberedValid(n: Net, nt: int, no: int)
    requires Closed(n) && FuidsArePositions(n) && NumberedRecords(n, nt, no) && NumberedEdges(n, nt, no)
    ensures Wired(n) && Symmetric(n) && CheckValid(n)
  {
    NumberedWired(n, nt, no);
    NumberedSymmetric(n, nt, no);
    PositionsDistinct(n);
    CheckValidMeans(n);
  }

  lemma NumberedWired(n: Net, nt: int, no: int)
    requires NumberedRecords(n, nt, no) && NumberedEdges(n, nt, no)
    ensures Wired(n)
  {
  }

  lemma NumberedSymmetric(n: Net, nt: int, no: int)
    requires NumberedRecords(n, nt, no) && NumberedEdges(n, nt, no)
    ensures Symmetric(n)
  {
  }

  lemma PositionsDistinct(n: Net)
    requires Closed(n) && FuidsArePositions(n)
    ensures DistinctFuids(n)
  {
  }

  /** The records of `SharedNet`, one by one. */
  ghost predicate IsSharedNet(n: Net) {
    && n.tensors == [0, 1, 2, 3, 4] && n.ops == [0, 1, 2] && n.sorted
    && (forall t :: t in n.tensorAt <==> 0 <= t < 5) && (forall a :: a in n.opAt <==> 0 <= a < 3)
    && n.tensorAt[0] == Tensor(0, [2, 3], None, [0], None)
    && n.tensorAt[1] == Tensor(1, [3, 2], Some(0), [1, 2], None)
    && n.tensorAt[2] == Tensor(2, [2, 4], None, [1], None)
    && n.tensorAt[3] == Tensor(3, [3, 4], Some(1), [], None)
    && n.tensorAt[4] == Tensor(4, [3, 2], Some(2), [], None)
    && n.opAt[0] == Operator(Transpose([1, 0]), [0], [1], {}, {1, 2})
    && n.opAt[1] == Operator(MatMul(false, false), [1, 2], [3], {0}, {})
    && n.opAt[2] == Operator(Other("Relu"), [1], [4], {0}, {})
  }

  lemma SharedNetIs()
    ensures IsSharedNet(SharedNet())
  {
  }

  lemma SharedNetClosed(n: Net)
    requires IsSharedNet(n)
    ensures Closed(n) && FuidsArePositions(n)
    ensures (forall t :: t in n.tensors ==> 0 <= t < 5) && (forall a :: a in n.ops ==> 0 <= a < 3)
  {
  }

  lemma SharedNetAt(n: Net, t: TensorId, a: OpId, b: OpId)
    requires IsSharedNet(n) && 0 <= t < 5 && 0 <= a < 3 && 0 <= b < 3
    ensures && t in n.tensorAt && TensorOk(n, t) && a in n.opAt && OpOk(n, a) && b in n.opAt
            && (t in n.opAt[a].inputs <==> a in n.tensorAt[t].targets)
            && (t in n.opAt[a].outputs <==> n.tensorAt[t].source == Some(a))
            && (b in n.opAt[a].succs <==> a in n.opAt[b].preds)
  {
  }

  /** The shared-output graph is valid, fully wired and has symmetric caches. */
  lemma SharedNetValid(n: Net)
    requires IsSharedNet(n)
    ensures Closed(n) && Wired(n) && Symmetric(n) && CheckValid(n)
  {
    SharedNetClosed(n);
    SharedNetRecords(n);
    SharedNetEdges(n);
    NumberedValid(n, 5, 3);
  }

  lemma SharedNetRecords(n: Net)
    requires IsSharedNet(n)
    ensures NumberedRecords(n, 5, 3)
  {
    SharedNetClosed(n);
    forall t | 0 <= t < 5 ensures t in n.tensorAt && TensorOk(n, t) {
      SharedNetAt(n, t, 0, 0);
    }
    forall a | 0 <= a < 3 ensures a in n.opAt && OpOk(n, a) {
      SharedNetAt(n, 0, a, 0);
    }
  }

  lemma SharedNetEdges(n: Net)
    requires IsSharedNet(n)
    ensures NumberedEdges(n, 5, 3)
  {
    forall t, a | 0 <= t < 5 && 0 <= a < 3
      ensures && (t in n.opAt[a].inputs <==> a in n.tensorAt[t].targets)
              && (t in n.opAt[a].outputs <==> n.tensorAt[t].source == Some(a))
    {
      SharedNetAt(n, t, a, 0);
    }
    forall a, b | 0 <= a < 3 && 0 <= b < 3 ensures b in n.opAt[a].succs <==> a in n.opAt[b].preds {
      SharedNetAt(n, 0, a, b);
    }
  }

  /**
   * Rule 2 on a Transpose output that another operator also reads: the graph is valid and fully
   * wired before the merge, and afterwards the Relu still names the removed Transpose as its
   * predecessor, so `checkValid` fails.
   */
  lemma SharedOutputBreaksValidity(n: Net)
    requires IsSharedNet(n)
    ensures && Closed(n) && Wired(n) && Symmetric(n) && CheckValid(n)
            && 1 in n.opAt && Fusable(n, 1, 0)
            && Closed(Merge(n, 1, 0)) && !CheckValid(Merge(n, 1, 0))
  {
    SharedNetValid(n);
    assert ShouldSwap([1, 0]);
    MergeProgress(n, 1, 0);
    var r := Merge(n, 1, 0);
    assert r.ops == RemoveFirst([0, 1, 2], 0);
    assert r.ops == [1, 2];
    assert r.opAt[2] == n.opAt[2];
    assert !OpOk(r, 2);
  }

  /**
   * An input tensor 0 made by operator 0 and put through a Transpose (operator 1) and its
   * inverse (operator 2), whose output nothing reads.
   */
  function UnreadPairNet(): Net {
    Net([0, 1, 2], [0, 1, 2],
        map[0 := Tensor(0, [2, 3], Some(0), [1], None),
            1 := Tensor(1, [3, 2], Some(1), [2], None),
            2 := Tensor(2, [2, 3], Some(2), [], None)],
        map[0 := Operator(Other("Input"), [], [0], {}, {1}),
            1 := Operator(Transpose([1, 0]), [0], [1], {0}, {2}),
            2 := Operator(Transpose([1, 0]), [1], [2], {1}, {})],
        true)
  }

  /** The records of `UnreadPairNet`, one by one. */
  ghost predicate IsUnreadPairNet(n: Net) {
    && n.tensors == [0, 1, 2] && n.ops == [0, 1, 2] && n.sorted
    && (forall t :: t in n.tensorAt <==> 0 <= t < 3) && (forall a :: a in n.opAt <==> 0 <= a < 3)
    && n.tensorAt[0] == Tensor(0, [2, 3], Some(0), [1], None)
    && n.tensorAt[1] == Tensor(1, [3, 2], Some(1), [2], None)
    && n.tensorAt[2] == Tensor(2, [2, 3], Some(2), [], None)
    && n.opAt[0] == Operator(Other("Input"), [], [0], {}, {1})
    && n.opAt[1] == Operator(Transpose([1, 0]), [0], [1], {0}, {2})
    && n.opAt[2] == Operator(Transpose([1, 0]), [1], [2], {1}, {})
  }

  lemma UnreadPairNetIs()
    ensures IsUnreadPairNet(UnreadPairNet())
  {
  }

  lemma UnreadPairNetClosed(n: Net)
    requires IsUnreadPairNet(n)
    ensures Closed(n) && FuidsArePositions(n)
    ensures (forall t :: t in n.tensors ==> 0 <= t < 3) && (forall a :: a in n.ops ==> 0 <= a < 3)
  {
  }

  lemma UnreadPairNetAt(n: Net, t: TensorId, a: OpId, b: OpId)
    requires IsUnreadPairNet(n) && 0 <= t < 3 && 0 <= a < 3 && 0 <= b < 3
    ensures && t in n.tensorAt && TensorOk(n, t) && a in n.opAt && OpOk(n, a) && b in n.opAt
            && (t in n.opAt[a].inputs <==> a in n.tensorAt[t].targets)
            && (t in n.opAt[a].outputs <==> n.tensorAt[t].source == Some(a))
            && (b in n.opAt[a].succs <==> a in n.opAt[b].preds)
  {
  }

  lemma UnreadPairNetRecords(n: Net)
    requires IsUnreadPairNet(n)
    ensures NumberedRecords(n, 3, 3)
  {
    UnreadPairNetClosed(n);
    forall t | 0 <= t < 3 ensures t in n.tensorAt && TensorOk(n, t) {
      UnreadPairNetAt(n, t, 0, 0);
    }
    forall a | 0 <= a < 3 ensures a in n.opAt && OpOk(n, a) {
      UnreadPairNetAt(n, 0, a, 0);
    }
  }

  lemma UnreadPairNetEdges(n: Net)
    requires IsUnreadPairNet(n)
    ensures NumberedEdges(n, 3, 3)
  {
    forall t, a | 0 <= t < 3 && 0 <= a < 3
      ensures && (t in n.opAt[a].inputs <==> a in n.tensorAt[t].targets)
              && (t in n.opAt[a].outputs <==> n.tensorAt[t].source == Some(a))
    {
      UnreadPairNetAt(n, t, a, 0);
    }
    forall a, b | 0 <= a < 3 && 0 <= b < 3 ensures b in n.opAt[a].succs <==> a in n.opAt[b].preds {
      UnreadPairNetAt(n, 0, a, b);
    }
  }

  /** The unread-pair graph is valid, fully wired and has symmetric caches. */
  lemma UnreadPairNetValid(n: Net)
    requires IsUnreadPairNet(n)
    ensures Closed(n) && Wired(n) && Symmetric(n) && CheckValid(n)
  {
    UnreadPairNetClosed(n);
    UnreadPairNetRecords(n);
    UnreadPairNetEdges(n);
    NumberedValid(n, 3, 3);
  }

  /** Rule 1's scan finds the pair: operator 0 is no Transpose, and operator 2 undoes operator 1. */
  lemma UnreadPairFound(n: Net)
    requires IsUnreadPairNet(n)
    ensures Closed(n) && FindPair(n, 0) == Some((1, 2))
  {
    UnreadPairNetClosed(n);
    assert PairFrom(n, 0) == None;
    assert IsInverse([1, 0], [1, 0]);
    assert PairFrom(n, 1) == Some(2);
  }

  /**
   * Rule 1 on a pair whose second output nothing reads: the graph is valid and fully wired
   * before, and afterwards operator 0 still names the removed first Transpose as its successor,
   * so `checkValid` fails.
   */
  lemma UnreadPairBreaksValidity(n: Net)
    requires IsUnreadPairNet(n)
    ensures && Closed(n) && Wired(n) && Symmetric(n) && CheckValid(n)
            && FindPair(n, 0) == Some((1, 2))
            && Closed(Rule1Once(n)) && !CheckValid(Rule1Once(n))
  {
    UnreadPairNetValid(n);
    UnreadPairFound(n);
    Rule1OnceKeepsClosed(n);
    var r := Rule1Once(n);
    assert r == CutPair(n, 1, 2, 0, 1, 2);
    assert r.ops == RemoveFirst(RemoveFirst([0, 1, 2], 1), 2);
    assert r.ops == [0];
    assert r.opAt[0] == n.opAt[0];
    assert !OpOk(r, 0);
  }

  // ---------------------------------------------------------------------------------------
  // Keeping the fuids apart

  /** Keeping some of the listed tensors, each with its fuid, keeps the fuids apart. */
  lemma FuidsStayDistinct(n: Net, r: Net)
    requires Closed(n) && Closed(r) && DistinctFuids(n) && NoDups(r.tensors)
    requires forall t :: t in r.tensors ==> t in n.tensors && r.tensorAt[t].fuid == n.tensorAt[t].fuid
    ensures DistinctFuids(r)
  {
    forall i, j | 0 <= i < j < |r.tensors|
      ensures r.tensorAt[r.tensors[i]].fuid != r.tensorAt[r.tensors[j]].fuid
    {
      var x, y := r.tensors[i], r.tensors[j];
      assert x in r.tensors && y in r.tensors;
      var i' :| 0 <= i' < |n.tensors| && n.tensors[i'] == x;
      var j' :| 0 <= j' < |n.tensors| && n.tensors[j'] == y;
      assert i' != j';
    }
  }

  // ---------------------------------------------------------------------------------------
  // Rule 2 on a clean merge

  /**
   * A merge that leaves nothing dangling: the Transpose `s` reads one tensor `tin`, other than
   * its one output `input`; only `mm` reads `input`, and only in slot `k`; and the caches of `s`
   * name no operator but the source of `tin` and `mm`.
   */
  ghost predicate CleanMerge(n: Net, mm: OpId, k: nat)
    requires Closed(n) && mm in n.opAt && Fusable(n, mm, k)
  {
    var x := n.opAt[mm];
    var input := x.inputs[k];
    var y := n.opAt[n.tensorAt[input].source.value];
    && |y.inputs| == 1 && y.outputs == [input] && y.inputs[0] != input
    && (forall o :: o in n.tensorAt[input].targets ==> o == mm)
    && (forall j :: 0 <= j < |x.inputs| && j != k ==> x.inputs[j] != input)
    && y.preds <= SourceSet(n, y.inputs[0]) && y.succs <= {mm}
  }

  /** A valid, wired, symmetric graph without repeats, and a clean merge named in full. */
  ghost predicate MergeScene(n: Net, mm: OpId, k: nat, input: TensorId, s: OpId, tin: TensorId) {
    && Closed(n) && CheckValid(n) && Wired(n) && Symmetric(n) && NoDups(n.ops) && NoDups(n.tensors)
    && mm in n.ops && mm in n.opAt && Fusable(n, mm, k) && CleanMerge(n, mm, k)
    && input == n.opAt[mm].inputs[k] && Some(s) == n.tensorAt[input].source
    && tin == n.opAt[s].inputs[0]
  }

  /** How `s`, `tin` and `input` are tied into the graph before a clean merge. */
  ghost predicate MergeTies(n: Net, mm: OpId, k: nat, input: TensorId, s: OpId, tin: TensorId)
    requires Closed(n) && mm in n.opAt && tin in n.tensorAt
  {
    && s in n.ops && s != mm && mm in n.ops && input in n.tensors && tin in n.tensors && tin != input
    && k < |n.opAt[mm].inputs|
    && (forall j :: 0 <= j < |n.opAt[mm].inputs| && j != k ==> n.opAt[mm].inputs[j] != input)
    && (forall p :: n.tensorAt[tin].source == Some(p) ==> p in n.ops && p != s)
    && (forall a :: a in n.ops && a != mm ==> input !in n.opAt[a].inputs)
    && (forall a :: a in n.ops && a != s ==> input !in n.opAt[a].outputs)
    && (forall t :: t in n.tensors && t != tin ==> s !in n.tensorAt[t].targets)
    && (forall t :: t in n.tensors && t != input ==> n.tensorAt[t].source != Some(s))
    && (forall a :: a in n.ops && s in n.opAt[a].preds ==> a == mm)
    && (forall a :: a in n.ops && s in n.opAt[a].succs ==> n.tensorAt[tin].source == Some(a))
  }

  /** The state a clean merge leaves, record by record. */
  ghost predicate Merged(n: Net, r: Net, mm: OpId, k: nat, input: TensorId, s: OpId, tin: TensorId)
    requires Closed(n) && mm in n.opAt && tin in n.tensorAt && k < |n.opAt[mm].inputs|
  {
    && Closed(r) && NoDups(r.ops) && NoDups(r.tensors)
    && r.opAt.Keys == n.opAt.Keys && r.tensorAt.Keys == n.tensorAt.Keys
    && (forall o :: o in r.ops <==> o in n.ops && o != s)
    && (forall t :: t in r.tensors <==> t in n.tensors && t != input)
    && (forall t :: t in n.tensorAt ==> r.tensorAt[t].fuid == n.tensorAt[t].fuid)
    && r.tensorAt[tin].targets == RemoveAll(n.tensorAt[tin].targets, s) + [mm]
    && r.tensorAt[tin].source == n.tensorAt[tin].source
    && (forall t :: t in n.tensorAt && t != input && t != tin ==> r.tensorAt[t] == n.tensorAt[t])
    && r.opAt[mm].inputs == n.opAt[mm].inputs[k := tin]
    && (forall a :: a in n.opAt && a != mm ==> r.opAt[a].inputs == n.opAt[a].inputs)
    && (forall a :: a in n.opAt ==> r.opAt[a].outputs == n.opAt[a].outputs)
    && (forall a :: a in n.opAt ==>
          && r.opAt[a].preds == (if a == mm then (n.opAt[a].preds - {s}) + SourceSet(n, tin) else n.opAt[a].preds)
          && r.opAt[a].succs == (if n.tensorAt[tin].source == Some(a) then (n.opAt[a].succs - {s}) + {mm} else n.opAt[a].succs))
  }

  /** Where the Transpose `s`, its input `tin` and its output `input` sit in the graph. */
  lemma MergePlaces(n: Net, mm: OpId, k: nat, input: TensorId, s: OpId, tin: TensorId)
    requires MergeScene(n, mm, k, input, s, tin)
    ensures s in n.ops && s != mm && input in n.tensors && tin in n.tensors && tin != input
    ensures forall p :: n.tensorAt[tin].source == Some(p) ==> p in n.ops && p != s
  {
    CheckValidMeans(n);
    assert OpOk(n, mm) && TensorOk(n, input);
    assert OpOk(n, s) && n.opAt[s].inputs[0] in n.opAt[s].inputs;
    forall p | n.tensorAt[tin].source == Some(p) ensures p in n.ops && p != s {
      assert TensorOk(n, tin);
    }
  }

  /** Only `mm` reads `input`, only `s` makes it, and `s` touches no other tensor. */
  lemma MergeWires(n: Net, mm: OpId, input: TensorId, s: OpId, tin: TensorId)
    requires Closed(n) && Wired(n) && s in n.ops && input in n.tensors
    requires n.tensorAt[input].source == Some(s) && (forall o :: o in n.tensorAt[input].targets ==> o == mm)
    requires n.opAt[s].inputs == [tin] && n.opAt[s].outputs == [input]
    ensures forall a :: a in n.ops && a != mm ==> input !in n.opAt[a].inputs
    ensures forall a :: a in n.ops && a != s ==> input !in n.opAt[a].outputs
    ensures forall t :: t in n.tensors && t != tin ==> s !in n.tensorAt[t].targets
    ensures forall t :: t in n.tensors && t != input ==> n.tensorAt[t].source != Some(s)
  {
  }

  /** Through the symmetric caches, only `mm` follows `s` and only the source of `tin` precedes it. */
  lemma MergeCaches(n: Net, mm: OpId, s: OpId, tin: TensorId)
    requires Closed(n) && Symmetric(n) && s in n.ops && tin in n.tensorAt
    requires n.opAt[s].preds <= SourceSet(n, tin) && n.opAt[s].succs <= {mm}
    ensures forall a :: a in n.ops && s in n.opAt[a].preds ==> a == mm
    ensures forall a :: a in n.ops && s in n.opAt[a].succs ==> n.tensorAt[tin].source == Some(a)
  {
    forall a | a in n.ops && s in n.opAt[a].succs ensures n.tensorAt[tin].source == Some(a) {
      assert a in n.opAt[s].preds;
    }
    forall a | a in n.ops && s in n.opAt[a].preds ensures a == mm {
      assert a in n.opAt[s].succs;
    }
  }

  lemma MergeTiesHold(n: Net, mm: OpId, k: nat, input: TensorId, s: OpId, tin: TensorId)
    requires MergeScene(n, mm, k, input, s, tin)
    ensures tin in n.tensorAt && MergeTies(n, mm, k, input, s, tin)
  {
    MergePlaces(n, mm, k, input, s, tin);
    MergeWires(n, mm, input, s, tin);
    MergeCaches(n, mm, s, tin);
  }

  /** The tensor records after a merge. */
  lemma MergeTensorMap(n: Net, mm: OpId, k: nat, input: TensorId, s: OpId, tin: TensorId, r: Net)
    requires MergeScene(n, mm, k, input, s, tin) && r == Fuse(n, mm, k, input, s, tin)
    ensures r.tensorAt.Keys == n.tensorAt.Keys
    ensures forall t :: t in n.tensorAt ==> r.tensorAt[t].fuid == n.tensorAt[t].fuid
    ensures r.tensorAt[tin].targets == RemoveAll(n.tensorAt[tin].targets, s) + [mm]
    ensures r.tensorAt[tin].source == n.tensorAt[tin].source
    ensures r.tensorAt[input].targets == []
    ensures forall t :: t in n.tensorAt && t != input && t != tin ==> r.tensorAt[t] == n.tensorAt[t]
  {
    MergePlaces(n, mm, k, input, s, tin);
    var m := Rewire(n, mm, k, s, tin);
    RetargetTensors(m, mm, input, s, tin);
    OnlyOneLeavesNothing(n.tensorAt[input].targets, mm);
  }

  /** Taking `x` out of a list that holds nothing else leaves it empty. */
  lemma OnlyOneLeavesNothing<T>(xs: seq<T>, x: T)
    requires forall y :: y in xs ==> y == x
    ensures RemoveAll(xs, x) == []
  {
  }

  /** The operator records and the lists after a merge. */
  lemma MergeOpMap(n: Net, mm: OpId, k: nat, input: TensorId, s: OpId, tin: TensorId, r: Net)
    requires MergeScene(n, mm, k, input, s, tin) && r == Fuse(n, mm, k, input, s, tin)
    requires r.tensorAt[input].targets == []
    ensures Closed(r) && NoDups(r.ops) && NoDups(r.tensors) && r.opAt.Keys == n.opAt.Keys
    ensures forall o :: o in r.ops <==> o in n.ops && o != s
    ensures forall t :: t in r.tensors <==> t in n.tensors && t != input
    ensures r.opAt[mm].inputs == n.opAt[mm].inputs[k := tin]
    ensures forall a :: a in n.opAt && a != mm ==> r.opAt[a].inputs == n.opAt[a].inputs
    ensures forall a :: a in n.opAt ==> r.opAt[a].outputs == n.opAt[a].outputs
  {
    RewireOps(n, mm, k, s, tin);
    FuseLists(n, mm, k, input, s, tin);
    FuseKeepsClosed(n, mm, k, input, s, tin);
  }

  lemma MergedHolds(n: Net, mm: OpId, k: nat, input: TensorId, s: OpId, tin: TensorId, r: Net)
    requires MergeScene(n, mm, k, input, s, tin) && r == Fuse(n, mm, k, input, s, tin)
    ensures tin in n.tensorAt && Merged(n, r, mm, k, input, s, tin)
  {
    MergePlaces(n, mm, k, input, s, tin);
    MergeTensorMap(n, mm, k, input, s, tin, r);
    MergeOpMap(n, mm, k, input, s, tin, r);
    FuseNeighbours(n, mm, k, input, s, tin);
  }

  /** After a merge `tin` is still consumed, by listed operators, and made by a listed one if by any. */
  lemma MergeTinOk(n: Net, r: Net, mm: OpId, s: OpId, tin: TensorId)
    requires Closed(n) && r.tensorAt.Keys == n.tensorAt.Keys && tin in n.tensorAt && TensorOk(n, tin)
    requires forall o :: o in r.ops <==> o in n.ops && o != s
    requires mm in n.ops && mm != s
    requires r.tensorAt[tin].targets == RemoveAll(n.tensorAt[tin].targets, s) + [mm]
    requires r.tensorAt[tin].source == n.tensorAt[tin].source
    requires forall p :: n.tensorAt[tin].source == Some(p) ==> p != s
    ensures TensorOk(r, tin)
  {
    var ts := RemoveAll(n.tensorAt[tin].targets, s);
    forall o | o in r.tensorAt[tin].targets ensures o in r.ops {
      if o != mm {
        var i :| 0 <= i < |ts| && ts[i] == o;
      }
    }
  }

  /** After a merge every listed tensor is still produced or consumed, and only by listed operators. */
  lemma MergeTensorsOk(n: Net, r: Net, mm: OpId, k: nat, input: TensorId, s: OpId, tin: TensorId)
    requires Closed(n) && CheckValid(n) && mm in n.opAt && tin in n.tensorAt && k < |n.opAt[mm].inputs|
    requires MergeTies(n, mm, k, input, s, tin) && Merged(n, r, mm, k, input, s, tin)
    ensures forall t :: t in r.tensors ==> TensorOk(r, t)
  {
    forall t | t in r.tensors ensures TensorOk(r, t) {
      assert TensorOk(n, t);
      if t == tin {
        MergeTinOk(n, r, mm, s, tin);
      }
    }
  }

  /** After a merge a listed operator still reads and writes only listed tensors. */
  lemma MergeOpTensors(n: Net, r: Net, mm: OpId, k: nat, input: TensorId, s: OpId, tin: TensorId, o: OpId)
    requires Closed(n) && r.opAt.Keys == n.opAt.Keys && mm in n.opAt && o in n.opAt && o in n.ops && o != s
    requires OpOk(n, o)
    requires forall t :: t in r.tensors <==> t in n.tensors && t != input
    requires tin in n.tensors && tin != input && k < |n.opAt[mm].inputs|
    requires forall j :: 0 <= j < |n.opAt[mm].inputs| && j != k ==> n.opAt[mm].inputs[j] != input
    requires r.opAt[mm].inputs == n.opAt[mm].inputs[k := tin]
    requires o != mm ==> r.opAt[o].inputs == n.opAt[o].inputs
    requires r.opAt[o].outputs == n.opAt[o].outputs
    requires o != mm ==> input !in n.opAt[o].inputs
    requires input !in n.opAt[o].outputs
    ensures forall t :: t in r.opAt[o].inputs ==> t in r.tensors
    ensures forall t :: t in r.opAt[o].outputs ==> t in r.tensors
  {
    if o == mm {
      var xs := n.opAt[mm].inputs;
      forall t | t in r.opAt[o].inputs ensures t in r.tensors {
        var j :| 0 <= j < |xs| && xs[k := tin][j] == t;
        assert xs[j] in xs;
      }
    }
  }

  /** After a merge a listed operator's neighbour caches still name only listed operators. */
  lemma MergeOpNeighbours(n: Net, r: Net, mm: OpId, s: OpId, tin: TensorId, o: OpId)
    requires Closed(n) && r.opAt.Keys == n.opAt.Keys && tin in n.tensorAt && o in n.opAt && o in n.ops
    requires OpOk(n, o)
    requires forall a :: a in r.ops <==> a in n.ops && a != s
    requires mm in n.ops && mm != s
    requires r.opAt[o].preds == (if o == mm then (n.opAt[o].preds - {s}) + SourceSet(n, tin) else n.opAt[o].preds)
    requires r.opAt[o].succs == (if n.tensorAt[tin].source == Some(o) then (n.opAt[o].succs - {s}) + {mm} else n.opAt[o].succs)
    requires forall p :: n.tensorAt[tin].source == Some(p) ==> p in n.ops && p != s
    requires s in n.opAt[o].preds ==> o == mm
    requires s in n.opAt[o].succs ==> n.tensorAt[tin].source == Some(o)
    ensures forall p :: p in r.opAt[o].preds ==> p in r.ops
    ensures forall q :: q in r.opAt[o].succs ==> q in r.ops
  {
  }

  /** After a merge every listed operator still names only listed tensors and operators. */
  lemma MergeOpsOk(n: Net, r: Net, mm: OpId, k: nat, input: TensorId, s: OpId, tin: TensorId)
    requires Closed(n) && CheckValid(n) && mm in n.opAt && tin in n.tensorAt && k < |n.opAt[mm].inputs|
    requires MergeTies(n, mm, k, input, s, tin) && Merged(n, r, mm, k, input, s, tin)
    ensures forall o :: o in r.ops ==> OpOk(r, o)
  {
    forall o | o in r.ops ensures OpOk(r, o) {
      assert OpOk(n, o);
      MergeOpTensors(n, r, mm, k, input, s, tin, o);
      MergeOpNeighbours(n, r, mm, s, tin, o);
    }
  }

  /** After a merge the caches of two listed operators still agree. */
  lemma MergeSymmetricAt(n: Net, r: Net, mm: OpId, s: OpId, tin: TensorId, a: OpId, b: OpId)
    requires a in n.opAt && b in n.opAt && a in r.opAt && b in r.opAt && tin in n.tensorAt
    requires a != s && b != s && mm != s
    requires b in n.opAt[a].succs <==> a in n.opAt[b].preds
    requires r.opAt[b].preds == (if b == mm then (n.opAt[b].preds - {s}) + SourceSet(n, tin) else n.opAt[b].preds)
    requires r.opAt[a].succs == (if n.tensorAt[tin].source == Some(a) then (n.opAt[a].succs - {s}) + {mm} else n.opAt[a].succs)
    ensures b in r.opAt[a].succs <==> a in r.opAt[b].preds
  {
  }

  /** After a merge the caches of the listed operators still agree. */
  lemma MergeSymmetric(n: Net, r: Net, mm: OpId, k: nat, input: TensorId, s: OpId, tin: TensorId)
    requires Closed(n) && Symmetric(n) && mm in n.opAt && tin in n.tensorAt && k < |n.opAt[mm].inputs|
    requires MergeTies(n, mm, k, input, s, tin) && Merged(n, r, mm, k, input, s, tin)
    ensures Symmetric(r)
  {
    forall a, b | a in r.ops && b in r.ops && a in r.opAt && b in r.opAt
      ensures b in r.opAt[a].succs <==> a in r.opAt[b].preds
    {
      MergeSymmetricAt(n, r, mm, s, tin, a, b);
    }
  }

  lemma MergeFuids(n: Net, r: Net, mm: OpId, k: nat, input: TensorId, s: OpId, tin: TensorId)
    requires Closed(n) && DistinctFuids(n) && mm in n.opAt && tin in n.tensorAt && k < |n.opAt[mm].inputs|
    requires Merged(n, r, mm, k, input, s, tin)
    ensures DistinctFuids(r)
  {
    FuidsStayDistinct(n, r);
  }

  /**
   * Rule 2 keeps a valid graph valid when the merge is clean: on a graph whose caches agree with
   * each other and with the tensors' wiring, a merge whose Transpose feeds only the MatMul
   * leaves `checkValid` true and the caches agreeing.
   */
  lemma MergeKeepsValid(n: Net, mm: OpId, k: nat)
    requires Closed(n) && CheckValid(n) && Wired(n) && Symmetric(n) && NoDups(n.ops) && NoDups(n.tensors)
    requires mm in n.ops && Fusable(n, mm, k) && CleanMerge(n, mm, k)
    ensures Closed(Merge(n, mm, k)) && CheckValid(Merge(n, mm, k)) && Symmetric(Merge(n, mm, k))
  {
    var input := n.opAt[mm].inputs[k];
    var s := n.tensorAt[input].source.value;
    var tin := n.opAt[s].inputs[0];
    var r := Fuse(n, mm, k, input, s, tin);
    assert MergeScene(n, mm, k, input, s, tin);
    MergeTiesHold(n, mm, k, input, s, tin);
    MergedHolds(n, mm, k, input, s, tin, r);
    MergeTensorsOk(n, r, mm, k, input, s, tin);
    MergeOpsOk(n, r, mm, k, input, s, tin);
    MergeSymmetric(n, r, mm, k, input, s, tin);
    CheckValidMeans(n);
    MergeFuids(n, r, mm, k, input, s, tin);
    CheckValidMeans(r);
  }

  // ---------------------------------------------------------------------------------------
  // Rule 1 on a clean pair

  /**
   * A pair whose removal leaves nothing dangling: each Transpose has one input and one output,
   * the first feeds only the second, the three tensors differ, the second output has at least
   * one consumer, and the caches of the two Transposes name only their neighbours along the
   * chain (the source of the first input, each other, the consumers of the second output).
   */
  ghost predicate CleanPair(n: Net, t1: OpId, t2: OpId) {
    && t1 in n.opAt && t2 in n.opAt
    && var x, y := n.opAt[t1], n.opAt[t2];
    && |x.inputs| == 1 && |x.outputs| == 1 && y.inputs == x.outputs && |y.outputs| == 1
    && var in1, out1, out2 := x.inputs[0], x.outputs[0], y.outputs[0];
    && in1 in n.tensorAt && out1 in n.tensorAt && out2 in n.tensorAt
    && in1 != out1 && in1 != out2 && out1 != out2
    && n.tensorAt[out1].targets == [t2] && n.tensorAt[out2].targets != []
    && x.preds <= SourceSet(n, in1) && x.succs <= {t2}
    && y.preds <= {t1} && y.succs <= (set c | c in n.tensorAt[out2].targets)
  }

  /** A valid, wired, symmetric graph without repeats, and a clean pair named in full. */
  ghost predicate PairScene(n: Net, t1: OpId, t2: OpId, in1: TensorId, out1: TensorId, out2: TensorId) {
    && Closed(n) && CheckValid(n) && Wired(n) && Symmetric(n) && NoDups(n.ops) && NoDups(n.tensors)
    && t1 in n.ops && CleanPair(n, t1, t2)
    && in1 == n.opAt[t1].inputs[0] && out1 == n.opAt[t1].outputs[0] && out2 == n.opAt[t2].outputs[0]
  }

  /** How the pair and its three tensors are tied into the graph before the rewrite. */
  ghost predicate PairTies(n: Net, t1: OpId, t2: OpId, in1: TensorId, out1: TensorId, out2: TensorId)
    requires Closed(n) && in1 in n.tensorAt && out2 in n.tensorAt
  {
    PairTensorTies(n, t1, t2, in1, out1, out2) && PairOpTies(n, t1, t2, in1, out1, out2)
  }

  /** The tensor side of `PairTies`. */
  ghost predicate PairTensorTies(n: Net, t1: OpId, t2: OpId, in1: TensorId, out1: TensorId, out2: TensorId)
    requires Closed(n) && in1 in n.tensorAt && out2 in n.tensorAt
  {
    var cs := n.tensorAt[out2].targets;
    && t1 in n.ops && t2 in n.ops && t1 != t2
    && in1 in n.tensors && in1 != out1 && in1 != out2 && cs != []
    && (forall c :: c in cs ==> c in n.ops && c != t1 && c != t2)
    && (forall c :: c in n.tensorAt[in1].targets ==> c in n.ops && c != t2)
    && (forall p :: n.tensorAt[in1].source == Some(p) ==> p in n.ops && p != t1 && p != t2)
    && (forall t :: t in n.tensors && t != in1 ==> t1 !in n.tensorAt[t].targets)
    && (forall t :: t in n.tensors && t != out1 ==> t2 !in n.tensorAt[t].targets)
    && (forall t :: t in n.tensors && t != out1 ==> n.tensorAt[t].source != Some(t1))
    && (forall t :: t in n.tensors && t != out2 ==> n.tensorAt[t].source != Some(t2))
  }

  /** The operator side of `PairTies`. */
  ghost predicate PairOpTies(n: Net, t1: OpId, t2: OpId, in1: TensorId, out1: TensorId, out2: TensorId)
    requires Closed(n) && in1 in n.tensorAt && out2 in n.tensorAt
  {
    var cs := n.tensorAt[out2].targets;
    && (forall a :: a in n.ops && a != t2 ==> out1 !in n.opAt[a].inputs)
    && (forall a :: a in n.ops && a !in cs ==> out2 !in n.opAt[a].inputs)
    && (forall a :: a in n.ops && a != t1 ==> out1 !in n.opAt[a].outputs)
    && (forall a :: a in n.ops && a != t2 ==> out2 !in n.opAt[a].outputs)
    && (forall a :: a in n.ops && t1 in n.opAt[a].preds ==> a == t2)
    && (forall a :: a in n.ops && t2 in n.opAt[a].preds ==> a in cs)
    && (forall a :: a in n.ops && t1 in n.opAt[a].succs ==> n.tensorAt[in1].source == Some(a))
    && (forall a :: a in n.ops && t2 in n.opAt[a].succs ==> a == t1)
  }

  /** The state removing a clean pair leaves, record by record. */
  ghost predicate Paired(n: Net, r: Net, t1: OpId, t2: OpId, in1: TensorId, out1: TensorId, out2: TensorId)
    requires Closed(n) && in1 in n.tensorAt && out2 in n.tensorAt
  {
    var cs := n.tensorAt[out2].targets;
    && Closed(r) && NoDups(r.ops) && NoDups(r.tensors)
    && r.opAt.Keys == n.opAt.Keys && r.tensorAt.Keys == n.tensorAt.Keys
    && (forall o :: o in r.ops <==> o in n.ops && o != t1 && o != t2)
    && (forall t :: t in r.tensors <==> t in n.tensors && t != out1 && t != out2)
    && (forall t :: t in n.tensorAt ==> r.tensorAt[t].fuid == n.tensorAt[t].fuid)
    && r.tensorAt[in1].targets == RemoveAll(n.tensorAt[in1].targets + cs, t1)
    && r.tensorAt[in1].source == n.tensorAt[in1].source
    && (forall t :: t in n.tensorAt && t != in1 && t != out1 && t != out2 ==> r.tensorAt[t] == n.tensorAt[t])
    && (forall c :: c in cs ==> r.opAt[c].inputs == Replace(n.opAt[c].inputs, out2, in1))
    && (forall a :: a in n.opAt && a !in cs ==> r.opAt[a].inputs == n.opAt[a].inputs)
    && (forall a :: a in n.opAt ==> r.opAt[a].outputs == n.opAt[a].outputs)
    && (forall a :: a in n.opAt ==>
          && r.opAt[a].preds == (if a in cs then (n.opAt[a].preds - {t2}) + SourceSet(n, in1) else n.opAt[a].preds)
          && r.opAt[a].succs == (if n.tensorAt[in1].source == Some(a) then (n.opAt[a].succs - {t1}) + (set c | c in cs)
                                 else n.opAt[a].succs))
  }

  /** Where the two Transposes and their tensors sit in a valid, wired graph. */
  lemma PairPlaces(n: Net, t1: OpId, t2: OpId, in1: TensorId, out1: TensorId, out2: TensorId)
    requires PairScene(n, t1, t2, in1, out1, out2)
    ensures t2 in n.ops && t1 != t2 && in1 in n.tensors && out1 in n.tensors && out2 in n.tensors
    ensures n.tensorAt[out1].source == Some(t1) && n.tensorAt[out2].source == Some(t2)
    ensures forall c :: c in n.tensorAt[out2].targets ==> c in n.ops
    ensures forall c :: c in n.tensorAt[in1].targets ==> c in n.ops
    ensures forall p :: n.tensorAt[in1].source == Some(p) ==> p in n.ops
  {
    CheckValidMeans(n);
    assert OpOk(n, t1) && in1 in n.opAt[t1].inputs && out1 in n.opAt[t1].outputs;
    assert TensorOk(n, out1) && t2 in n.tensorAt[out1].targets;
    assert OpOk(n, t2) && out2 in n.opAt[t2].outputs;
    assert TensorOk(n, out2) && TensorOk(n, in1);
  }

  /** Through the wiring: who reads and makes the three tensors, and what the Transposes touch. */
  lemma PairWires(n: Net, t1: OpId, t2: OpId, in1: TensorId, out1: TensorId, out2: TensorId)
    requires Closed(n) && Wired(n) && t1 in n.ops && t2 in n.ops && t1 != t2
    requires in1 in n.tensors && out1 in n.tensors && out2 in n.tensors
    requires n.opAt[t1].inputs == [in1] && n.opAt[t1].outputs == [out1]
    requires n.opAt[t2].inputs == [out1] && n.opAt[t2].outputs == [out2]
    requires in1 != out1 && in1 != out2 && n.tensorAt[out1].targets == [t2]
    ensures forall c :: c in n.tensorAt[out2].targets ==> c != t1 && c != t2
    ensures t2 !in n.tensorAt[in1].targets
    ensures forall p :: n.tensorAt[in1].source == Some(p) ==> p != t1 && p != t2
    ensures forall t :: t in n.tensors && t != in1 ==> t1 !in n.tensorAt[t].targets
    ensures forall t :: t in n.tensors && t != out1 ==> t2 !in n.tensorAt[t].targets
    ensures forall t :: t in n.tensors && t != out1 ==> n.tensorAt[t].source != Some(t1)
    ensures forall t :: t in n.tensors && t != out2 ==> n.tensorAt[t].source != Some(t2)
    ensures forall a :: a in n.ops && a != t2 ==> out1 !in n.opAt[a].inputs
    ensures forall a :: a in n.ops && a !in n.tensorAt[out2].targets ==> out2 !in n.opAt[a].inputs
    ensures forall a :: a in n.ops && a != t1 ==> out1 !in n.opAt[a].outputs
    ensures forall a :: a in n.ops && a != t2 ==> out2 !in n.opAt[a].outputs
  {
    assert out1 in n.opAt[t1].outputs && out2 in n.opAt[t2].outputs;
  }

  /** Through the symmetric caches: who precedes and follows each Transpose. */
  lemma PairCaches(n: Net, t1: OpId, t2: OpId, in1: TensorId, cs: seq<OpId>)
    requires Closed(n) && Symmetric(n) && t1 in n.ops && t2 in n.ops && in1 in n.tensorAt
    requires n.opAt[t1].preds <= SourceSet(n, in1) && n.opAt[t1].succs <= {t2}
    requires n.opAt[t2].preds <= {t1} && n.opAt[t2].succs <= (set c | c in cs)
    ensures forall a :: a in n.ops && t1 in n.opAt[a].preds ==> a == t2
    ensures forall a :: a in n.ops && t2 in n.opAt[a].preds ==> a in cs
    ensures forall a :: a in n.ops && t1 in n.opAt[a].succs ==> n.tensorAt[in1].source == Some(a)
    ensures forall a :: a in n.ops && t2 in n.opAt[a].succs ==> a == t1
  {
    forall a | a in n.ops && t1 in n.opAt[a].preds ensures a == t2 {
      assert a in n.opAt[t1].succs;
    }
    forall a | a in n.ops && t2 in n.opAt[a].preds ensures a in cs {
      assert a in n.opAt[t2].succs;
    }
    forall a | a in n.ops && t1 in n.opAt[a].succs ensures n.tensorAt[in1].source == Some(a) {
      assert a in n.opAt[t1].preds;
    }
    forall a | a in n.ops && t2 in n.opAt[a].succs ensures a == t1 {
      assert a in n.opAt[t2].preds;
    }
  }

  lemma PairTiesHold(n: Net, t1: OpId, t2: OpId, in1: TensorId, out1: TensorId, out2: TensorId)
    requires PairScene(n, t1, t2, in1, out1, out2)
    ensures in1 in n.tensorAt && out1 in n.tensorAt && out2 in n.tensorAt
    ensures PairTies(n, t1, t2, in1, out1, out2)
  {
    PairPlaces(n, t1, t2, in1, out1, out2);
    PairWires(n, t1, t2, in1, out1, out2);
    PairCaches(n, t1, t2, in1, n.tensorAt[out2].targets);
  }

  lemma PairedHolds(n: Net, t1: OpId, t2: OpId, in1: TensorId, out1: TensorId, out2: TensorId, r: Net)
    requires PairScene(n, t1, t2, in1, out1, out2) && in1 in n.tensorAt && out1 in n.tensorAt && out2 in n.tensorAt
    requires PairTies(n, t1, t2, in1, out1, out2)
    requires r == CutPair(n, t1, t2, in1, out1, out2)
    ensures Paired(n, r, t1, t2, in1, out1, out2)
  {
    CutPairOps(n, t1, t2, in1, out1, out2);
    CutPairTensors(n, t1, t2, in1, out1, out2);
    CutPairLists(n, t1, t2, in1, out1, out2);
    CutPairNeighbours(n, t1, t2, in1, out1, out2);
    CutPairKeepsClosed(n, t1, t2, in1, out1, out2);
  }

  /** After removing a pair the first input is still consumed, and only by listed operators. */
  lemma PairIn1Ok(n: Net, r: Net, t1: OpId, t2: OpId, in1: TensorId, cs: seq<OpId>)
    requires Closed(n) && r.tensorAt.Keys == n.tensorAt.Keys && in1 in n.tensorAt
    requires forall o :: o in r.ops <==> o in n.ops && o != t1 && o != t2
    requires cs != [] && (forall c :: c in cs ==> c in n.ops && c != t1 && c != t2)
    requires forall c :: c in n.tensorAt[in1].targets ==> c in n.ops && c != t2
    requires forall p :: n.tensorAt[in1].source == Some(p) ==> p in n.ops && p != t1 && p != t2
    requires r.tensorAt[in1].targets == RemoveAll(n.tensorAt[in1].targets + cs, t1)
    requires r.tensorAt[in1].source == n.tensorAt[in1].source
    ensures TensorOk(r, in1)
  {
    var all := n.tensorAt[in1].targets + cs;
    var ts := RemoveAll(all, t1);
    assert cs[0] in cs && all[|n.tensorAt[in1].targets|] == cs[0];
    assert cs[0] in ts;
    forall o | o in ts ensures o in r.ops {
      var i :| 0 <= i < |ts| && ts[i] == o;
      assert o in all;
    }
  }

  /** After removing a pair every listed tensor is still produced or consumed, by listed operators. */
  lemma PairTensorsOk(n: Net, r: Net, t1: OpId, t2: OpId, in1: TensorId, out1: TensorId, out2: TensorId)
    requires Closed(n) && CheckValid(n) && in1 in n.tensorAt && out2 in n.tensorAt
    requires PairTies(n, t1, t2, in1, out1, out2) && Paired(n, r, t1, t2, in1, out1, out2)
    ensures forall t :: t in r.tensors ==> TensorOk(r, t)
  {
    forall t | t in r.tensors ensures TensorOk(r, t) {
      assert TensorOk(n, t);
      if t == in1 {
        PairIn1Ok(n, r, t1, t2, in1, n.tensorAt[out2].targets);
      } else {
        PairOtherTensorOk(n, r, t1, t2, in1, t);
      }
    }
  }

  /** After removing a pair a listed tensor other than the first input is as sound as it was. */
  lemma PairOtherTensorOk(n: Net, r: Net, t1: OpId, t2: OpId, in1: TensorId, t: TensorId)
    requires Closed(n) && t in n.tensorAt && t in r.tensorAt && TensorOk(n, t) && r.tensorAt[t] == n.tensorAt[t]
    requires forall o :: o in r.ops <==> o in n.ops && o != t1 && o != t2
    requires t1 !in n.tensorAt[t].targets && t2 !in n.tensorAt[t].targets
    requires n.tensorAt[t].source != Some(t1) && n.tensorAt[t].source != Some(t2)
    ensures TensorOk(r, t)
  {
  }

  /** After removing a pair a listed operator still reads and writes only listed tensors. */
  lemma PairOpTensors(n: Net, r: Net, in1: TensorId, out1: TensorId, out2: TensorId, o: OpId)
    requires Closed(n) && o in n.opAt && o in r.opAt && OpOk(n, o)
    requires forall t :: t in r.tensors <==> t in n.tensors && t != out1 && t != out2
    requires in1 in n.tensors && in1 != out1 && in1 != out2
    requires r.opAt[o].inputs == Replace(n.opAt[o].inputs, out2, in1) || r.opAt[o].inputs == n.opAt[o].inputs
    requires r.opAt[o].inputs == n.opAt[o].inputs ==> out2 !in n.opAt[o].inputs
    requires out1 !in n.opAt[o].inputs
    requires r.opAt[o].outputs == n.opAt[o].outputs
    requires out1 !in n.opAt[o].outputs && out2 !in n.opAt[o].outputs
    ensures forall t :: t in r.opAt[o].inputs ==> t in r.tensors
    ensures forall t :: t in r.opAt[o].outputs ==> t in r.tensors
  {
    var xs := n.opAt[o].inputs;
    forall t | t in r.opAt[o].inputs ensures t in r.tensors {
      var j :| 0 <= j < |r.opAt[o].inputs| && r.opAt[o].inputs[j] == t;
      assert xs[j] in xs;
    }
  }

  /** After removing a pair a listed operator's caches still name only listed operators. */
  lemma PairOpNeighbours(n: Net, r: Net, t1: OpId, t2: OpId, in1: TensorId, cs: seq<OpId>, o: OpId)
    requires Closed(n) && o in n.opAt && o in r.opAt && in1 in n.tensorAt && OpOk(n, o)
    requires forall a :: a in r.ops <==> a in n.ops && a != t1 && a != t2
    requires forall c :: c in cs ==> c in n.ops && c != t1 && c != t2
    requires forall p :: n.tensorAt[in1].source == Some(p) ==> p in n.ops && p != t1 && p != t2
    requires r.opAt[o].preds == (if o in cs then (n.opAt[o].preds - {t2}) + SourceSet(n, in1) else n.opAt[o].preds)
    requires r.opAt[o].succs == (if n.tensorAt[in1].source == Some(o) then (n.opAt[o].succs - {t1}) + (set c | c in cs)
                                 else n.opAt[o].succs)
    requires t1 !in n.opAt[o].preds
    requires t2 in n.opAt[o].preds ==> o in cs
    requires t1 in n.opAt[o].succs ==> n.tensorAt[in1].source == Some(o)
    requires t2 !in n.opAt[o].succs
    ensures forall p :: p in r.opAt[o].preds ==> p in r.ops
    ensures forall q :: q in r.opAt[o].succs ==> q in r.ops
  {
  }

  /** After removing a pair every listed operator still names only listed tensors and operators. */
  lemma PairOpsOk(n: Net, r: Net, t1: OpId, t2: OpId, in1: TensorId, out1: TensorId, out2: TensorId)
    requires Closed(n) && CheckValid(n) && in1 in n.tensorAt && out2 in n.tensorAt
    requires PairTies(n, t1, t2, in1, out1, out2) && Paired(n, r, t1, t2, in1, out1, out2)
    ensures forall o :: o in r.ops ==> OpOk(r, o)
  {
    var cs := n.tensorAt[out2].targets;
    forall o | o in r.ops ensures OpOk(r, o) {
      assert OpOk(n, o);
      PairOpTensors(n, r, in1, out1, out2, o);
      PairOpNeighbours(n, r, t1, t2, in1, cs, o);
    }
  }

  /** After removing a pair the caches of two listed operators still agree. */
  lemma PairSymmetricAt(n: Net, r: Net, t1: OpId, t2: OpId, in1: TensorId, cs: seq<OpId>, a: OpId, b: OpId)
    requires a in n.opAt && b in n.opAt && a in r.opAt && b in r.opAt && in1 in n.tensorAt
    requires a != t1 && a != t2 && b != t1 && b != t2
    requires b in n.opAt[a].succs <==> a in n.opAt[b].preds
    requires r.opAt[b].preds == (if b in cs then (n.opAt[b].preds - {t2}) + SourceSet(n, in1) else n.opAt[b].preds)
    requires r.opAt[a].succs == (if n.tensorAt[in1].source == Some(a) then (n.opAt[a].succs - {t1}) + (set c | c in cs)
                                 else n.opAt[a].succs)
    ensures b in r.opAt[a].succs <==> a in r.opAt[b].preds
  {
  }

  /** After removing a pair the caches of the listed operators still agree. */
  lemma PairSymmetric(n: Net, r: Net, t1: OpId, t2: OpId, in1: TensorId, out1: TensorId, out2: TensorId)
    requires Closed(n) && Symmetric(n) && in1 in n.tensorAt && out2 in n.tensorAt
    requires Paired(n, r, t1, t2, in1, out1, out2)
    ensures Symmetric(r)
  {
    forall a, b | a in r.ops && b in r.ops && a in r.opAt && b in r.opAt
      ensures b in r.opAt[a].succs <==> a in r.opAt[b].preds
    {
      PairSymmetricAt(n, r, t1, t2, in1, n.tensorAt[out2].targets, a, b);
    }
  }

  lemma PairFuids(n: Net, r: Net, t1: OpId, t2: OpId, in1: TensorId, out1: TensorId, out2: TensorId)
    requires Closed(n) && DistinctFuids(n) && in1 in n.tensorAt && out2 in n.tensorAt
    requires Paired(n, r, t1, t2, in1, out1, out2)
    ensures DistinctFuids(r)
  {
    FuidsStayDistinct(n, r);
  }

  /**
   * Rule 1 keeps a valid graph valid when the pair is clean: on a graph whose caches agree with
   * each other and with the tensors' wiring, removing a pair whose second output is read leaves
   * `checkValid` true and the caches agreeing.
   */
  lemma CutPairKeepsValid(n: Net, t1: OpId, t2: OpId)
    requires Closed(n) && CheckValid(n) && Wired(n) && Symmetric(n) && NoDups(n.ops) && NoDups(n.tensors)
    requires t1 in n.ops && CleanPair(n, t1, t2)
    ensures var r := CutPair(n, t1, t2, n.opAt[t1].inputs[0], n.opAt[t1].outputs[0], n.opAt[t2].outputs[0]);
            Closed(r) && CheckValid(r) && Symmetric(r)
  {
    var in1, out1, out2 := n.opAt[t1].inputs[0], n.opAt[t1].outputs[0], n.opAt[t2].outputs[0];
    var r := CutPair(n, t1, t2, in1, out1, out2);
    assert PairScene(n, t1, t2, in1, out1, out2);
    PairTiesHold(n, t1, t2, in1, out1, out2);
    PairedHolds(n, t1, t2, in1, out1, out2, r);
    PairTensorsOk(n, r, t1, t2, in1, out1, out2);
    PairOpsOk(n, r, t1, t2, in1, out1, out2);
    PairSymmetric(n, r, t1, t2, in1, out1, out2);
    CheckValidMeans(n);
    PairFuids(n, r, t1, t2, in1, out1, out2);
    CheckValidMeans(r);
  }

  /** One round of rule 1 keeps a valid graph valid when the pair it finds, if any, is clean. */
  lemma Rule1OnceKeepsValid(n: Net)
    requires Closed(n) && CheckValid(n) && Wired(n) && Symmetric(n) && NoDups(n.ops) && NoDups(n.tensors)
    requires FindPair(n, 0).Some? ==> CleanPair(n, FindPair(n, 0).value.0, FindPair(n, 0).value.1)
    ensures Closed(Rule1Once(n)) && CheckValid(Rule1Once(n)) && Symmetric(Rule1Once(n))
  {
    FindPairFinds(n, 0);
    match FindPair(n, 0)
    case None =>
    case Some((t1, t2)) =>
      CutPairKeepsValid(n, t1, t2);
  }
}
