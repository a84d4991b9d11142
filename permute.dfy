/**
 * The permutation tests used by the two rewrite rules of `GraphObj::optimize`: the inverse-pair
 * test of rule 1 and `shouldSwap` of rule 2, with what they mean for shapes. A Transpose's
 * output shape is taken to follow the ONNX Transpose operator (axis `i` of the output is axis
 * `perm[i]` of the input); the Transpose operator's own inference is not part of this model.
 */
module Permute {
  import opened Common
  import opened Matmul

  /** Every entry of `perm` names an axis of a rank-`n` shape. */
  ghost predicate InRange(perm: seq<int>, n: nat) {
    forall i :: 0 <= i < |perm| ==> 0 <= perm[i] < n
  }

  /** The output shape of a Transpose with permutation `perm`. */
  function TransposeShape(s: Shape, perm: seq<int>): (r: Shape)
    requires InRange(perm, |s|)
    ensures |r| == |perm| && forall i :: 0 <= i < |perm| ==> r[i] == s[perm[i]]
  {
    seq(|perm|, i requires 0 <= i < |perm| => s[perm[i]])
  }

  function Identity(n: nat): (r: seq<int>)
    ensures |r| == n && forall i :: 0 <= i < n ==> r[i] == i
  {
    seq(n, i => i)
  }

  /**
   * `shouldSwap`: at least two axes, every axis but the last two in place, and the last two
   * exchanged.
   */
  function ShouldSwap(perm: seq<int>): bool {
    && |perm| >= 2
    && (forall i :: 0 <= i < |perm| - 2 ==> perm[i] == i)
    && perm[|perm| - 2] == |perm| - 1
    && perm[|perm| - 1] == |perm| - 2
  }

  /** `shouldSwap` accepts exactly one permutation per rank: the identity with its last two axes swapped. */
  lemma ShouldSwapIsLastTwoSwap(perm: seq<int>)
    ensures ShouldSwap(perm) <==> |perm| >= 2 && perm == SwapLast(Identity(|perm|))
  {
    if |perm| >= 2 && perm == SwapLast(Identity(|perm|)) {
      var n := |perm|;
      forall i | 0 <= i < n - 2 ensures perm[i] == i {
        assert perm[..n - 2][i] == Identity(n)[..n - 2][i];
      }
    }
    if ShouldSwap(perm) {
      var n := |perm|;
      var q := SwapLast(Identity(n));
      forall i | 0 <= i < n ensures perm[i] == q[i] {
        if i < n - 2 {
          assert q[..n - 2][i] == Identity(n)[..n - 2][i];
        }
      }
    }
  }

  /** A Transpose that `shouldSwap` accepts exchanges the trailing two axes of its input. */
  lemma SwapTransposeShape(s: Shape, perm: seq<int>)
    requires ShouldSwap(perm) && |perm| == |s|
    ensures InRange(perm, |s|) && TransposeShape(s, perm) == SwapLast(s)
  {
    var r := TransposeShape(s, perm);
    var n := |s|;
    forall i | 0 <= i < n ensures r[i] == SwapLast(s)[i] {
      if i < n - 2 {
        assert SwapLast(s)[..n - 2][i] == s[..n - 2][i];
      }
    }
  }

  /**
   * Rule 2 is shape-preserving when the flag it sets was clear: a MatMul with `transA` set, fed
   * the input of a last-two-swap Transpose, infers the shape it inferred from that Transpose's
   * output without the flag. The same holds for `transB`.
   */
  lemma FusionKeepsShape(x: Shape, b: Shape, perm: seq<int>, transB: bool, broadcast: (Shape, Shape) -> Shape)
    requires ShouldSwap(perm) && |perm| == |x|
    ensures InRange(perm, |x|)
    ensures InferShape(TransposeShape(x, perm), b, false, transB, broadcast)
         == InferShape(x, b, true, transB, broadcast)
  {
    SwapTransposeShape(x, perm);
    if |b| >= 2 {
      FlagsSwapAxes(x, b, true, transB, broadcast);
      FlagsSwapAxes(SwapLast(x), b, false, transB, broadcast);
    }
  }

  lemma FusionKeepsShapeB(a: Shape, x: Shape, perm: seq<int>, transA: bool, broadcast: (Shape, Shape) -> Shape)
    requires ShouldSwap(perm) && |perm| == |x|
    ensures InRange(perm, |x|)
    ensures InferShape(a, TransposeShape(x, perm), transA, false, broadcast)
         == InferShape(a, x, transA, true, broadcast)
  {
    SwapTransposeShape(x, perm);
    if |a| >= 2 {
      FlagsSwapAxes(a, x, transA, true, broadcast);
      FlagsSwapAxes(a, SwapLast(x), transA, false, broadcast);
    }
  }

  /**
   * Rule 2 sets the flag rather than toggling it, so when the flag was already set the fused
   * MatMul multiplies a different matrix: here A=[3,4] transposed to [4,3] and read with
   * `transA` multiplies [4,5], but [3,4] read with `transA` does not.
   */
  lemma FusionOverSetFlagChangesShape(broadcast: (Shape, Shape) -> Shape)
    ensures InRange([1, 0], 2)
    ensures InferShape(TransposeShape([3, 4], [1, 0]), [4, 5], true, false, broadcast) == Some([[3, 5]])
    ensures InferShape([3, 4], [4, 5], true, false, broadcast) == None
    ensures ShouldSwap([1, 0])
  {
    assert TransposeShape([3, 4], [1, 0]) == [4, 3];
    assert [4, 3][..0] == [] && [4, 5][..0] == [];
    assert Batch([], [], broadcast) + [3, 5] == [3, 5];
  }

  /**
   * Rule 1's test: composing the permutations gives the identity, `perm2[perm1[i]] == i` for
   * every axis `i` of the first. An entry of `perm1` outside `perm2` fails the test here.
   */
  function IsInverse(perm1: seq<int>, perm2: seq<int>): bool {
    forall i :: 0 <= i < |perm1| ==> 0 <= perm1[i] < |perm2| && perm2[perm1[i]] == i
  }

  /**
   * A pair that passes rule 1's test restores every shape of the right rank: the second
   * Transpose undoes the first, which is why removing both keeps the graph's meaning.
   */
  lemma InversePairCancels(s: Shape, perm1: seq<int>, perm2: seq<int>)
    requires IsInverse(perm1, perm2) && |perm1| == |perm2| == |s|
    ensures InRange(perm1, |s|) && InRange(perm2, |s|)
    ensures TransposeShape(TransposeShape(s, perm1), perm2) == s
  {
    var n := |s|;
    OntoFromInjective(perm1, perm2);
    forall j | 0 <= j < n ensures 0 <= perm2[j] < n && perm1[perm2[j]] == j {
      assert j in perm1;
      var i :| 0 <= i < n && perm1[i] == j;
    }
    var y := TransposeShape(s, perm1);
    var z := TransposeShape(y, perm2);
    forall j | 0 <= j < n ensures z[j] == s[j] {
      assert z[j] == y[perm2[j]] == s[perm1[perm2[j]]];
    }
  }

  /**
   * Pigeonhole: a left-invertible map from the first `n` axes into themselves reaches every
   * one of them.
   */
  lemma OntoFromInjective(perm1: seq<int>, perm2: seq<int>)
    requires IsInverse(perm1, perm2) && |perm1| == |perm2|
    ensures forall j :: 0 <= j < |perm1| ==> j in perm1
  {
    var n := |perm1|;
    var id := Identity(n);
    InverseHasNoRepeats(perm1, perm2);
    var image := set i | 0 <= i < n :: perm1[i];
    var axes := set i | 0 <= i < n :: id[i];
    ImageSize(perm1, n);
    ImageSize(id, n);
    forall x | x in image ensures x in axes {
      var i :| 0 <= i < n && perm1[i] == x;
      assert id[x] == x;
    }
    FullSubset(image, axes);
    forall j | 0 <= j < n ensures j in perm1 {
      assert id[j] in axes;
      var i :| 0 <= i < n && perm1[i] == j;
    }
  }

  lemma InverseHasNoRepeats(perm1: seq<int>, perm2: seq<int>)
    requires IsInverse(perm1, perm2)
    ensures NoDups(perm1)
  {
    forall i, j | 0 <= i < j < |perm1| ensures perm1[i] != perm1[j] {
      assert perm2[perm1[i]] == i && perm2[perm1[j]] == j;
    }
  }

  /** A subset as large as its superset is all of it. */
  lemma FullSubset(a: set<int>, b: set<int>)
    requires a <= b && |a| == |b|
    ensures a == b
  {
    var rest := b - a;
    assert b == a + rest && a * rest == {};
    assert |rest| == 0;
  }

  /** The first `k` entries of a sequence without repeats are `k` different values. */
  lemma {:induction false} ImageSize(s: seq<int>, k: nat)
    requires NoDups(s) && k <= |s|
    ensures |set i | 0 <= i < k :: s[i]| == k
  {
    if k > 0 {
      ImageSize(s, k - 1);
      var before := set i | 0 <= i < k - 1 :: s[i];
      assert (set i | 0 <= i < k :: s[i]) == before + {s[k - 1]};
      assert s[k - 1] !in before;
    }
  }

  /** Two transposes by [1,0] form an inverse pair, and the pair restores a matrix shape. */
  lemma InversePairExample()
    ensures IsInverse([1, 0], [1, 0])
    ensures InRange([1, 0], 2)
    ensures TransposeShape(TransposeShape([3, 4], [1, 0]), [1, 0]) == [3, 4]
  {
    assert TransposeShape([3, 4], [1, 0]) == [4, 3];
  }
}
