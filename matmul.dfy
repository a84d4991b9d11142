/**
 * Output-shape inference of the MatMul operator (`MatmulObj::inferShape`): the matrix axes are
 * the trailing two of each input, read transposed when `transA` / `transB` is set, and the
 * leading (batch) axes are combined by `infer_broadcast`, which is a parameter here.
 */
module Matmul {
  import opened Common

  /** The shape with its trailing two axes exchanged, batch axes kept. */
  function SwapLast(s: Shape): (r: Shape)
    requires |s| >= 2
    ensures |r| == |s| && r[..|s| - 2] == s[..|s| - 2]
    ensures r[|s| - 2] == s[|s| - 1] && r[|s| - 1] == s[|s| - 2]
  {
    s[..|s| - 2] + [s[|s| - 1], s[|s| - 2]]
  }

  lemma SwapLastTwice(s: Shape)
    requires |s| >= 2
    ensures SwapLast(SwapLast(s)) == s
  {
    assert SwapLast(SwapLast(s)) == s[..|s| - 2] + [s[|s| - 2], s[|s| - 1]];
    assert s == s[..|s| - 2] + [s[|s| - 2], s[|s| - 1]];
  }

  /** The shape as the multiplication reads it: swapped when its transpose flag is set. */
  function Oriented(s: Shape, trans: bool): Shape
    requires |s| >= 2
  {
    if trans then SwapLast(s) else s
  }

  /** The batch part of the output, chosen by which inputs have leading axes. */
  function Batch(batchA: Shape, batchB: Shape, broadcast: (Shape, Shape) -> Shape): Shape {
    if batchA == [] && batchB == [] then []
    else if batchA == [] then batchB
    else if batchB == [] then batchA
    else broadcast(batchA, batchB)
  }

  /**
   * `inferShape`: None where the source's assertions fail (an input of rank below two, or
   * inner dimensions that differ); otherwise a single output shape.
   */
  function InferShape(a: Shape, b: Shape, transA: bool, transB: bool, broadcast: (Shape, Shape) -> Shape)
    : (r: Option<seq<Shape>>)
    ensures r.Some? ==> |r.value| == 1 && |r.value[0]| >= 2
  {
    if |a| < 2 || |b| < 2 then None
    else
      var m := if transA then a[|a| - 1] else a[|a| - 2];
      var ka := if transA then a[|a| - 2] else a[|a| - 1];
      var kb := if transB then b[|b| - 1] else b[|b| - 2];
      var n := if transB then b[|b| - 2] else b[|b| - 1];
      if ka != kb then None
      else Some([Batch(a[..|a| - 2], b[..|b| - 2], broadcast) + [m, n]])
  }

  /** Both inputs must be at least matrices. */
  lemma LowRankFails(a: Shape, b: Shape, transA: bool, transB: bool, broadcast: (Shape, Shape) -> Shape)
    requires |a| < 2 || |b| < 2
    ensures InferShape(a, b, transA, transB, broadcast) == None
  {
  }

  /**
   * A transpose flag is the same as exchanging that input's trailing axes beforehand: the
   * flags only choose which axis is the row and which the column.
   */
  lemma FlagsSwapAxes(a: Shape, b: Shape, transA: bool, transB: bool, broadcast: (Shape, Shape) -> Shape)
    requires |a| >= 2 && |b| >= 2
    ensures InferShape(a, b, transA, transB, broadcast)
         == InferShape(Oriented(a, transA), Oriented(b, transB), false, false, broadcast)
  {
  }

  /**
   * The product of oriented matrices: defined exactly when the columns of A meet the rows of B,
   * and then the output is the batch part followed by A's rows and B's columns.
   */
  lemma ProductShape(a: Shape, b: Shape, transA: bool, transB: bool, broadcast: (Shape, Shape) -> Shape)
    requires |a| >= 2 && |b| >= 2
    ensures var a', b' := Oriented(a, transA), Oriented(b, transB);
            && (InferShape(a, b, transA, transB, broadcast).Some? <==> a'[|a| - 1] == b'[|b| - 2])
            && (a'[|a| - 1] == b'[|b| - 2] ==>
                  InferShape(a, b, transA, transB, broadcast)
                  == Some([Batch(a[..|a| - 2], b[..|b| - 2], broadcast) + [a'[|a| - 2], b'[|b| - 1]]]))
  {
  }

  /**
   * The batch axes: none when both inputs are matrices, those of the batched input when only
   * one is, and the broadcast of both otherwise.
   */
  lemma BatchAxes(a: Shape, b: Shape, transA: bool, transB: bool, broadcast: (Shape, Shape) -> Shape)
    requires InferShape(a, b, transA, transB, broadcast).Some?
    ensures var out := InferShape(a, b, transA, transB, broadcast).value[0];
            && (|a| == 2 && |b| == 2 ==> |out| == 2)
            && (|a| == 2 && |b| > 2 ==> out[..|out| - 2] == b[..|b| - 2])
            && (|a| > 2 && |b| == 2 ==> out[..|out| - 2] == a[..|a| - 2])
            && (|a| > 2 && |b| > 2 ==> out[..|out| - 2] == broadcast(a[..|a| - 2], b[..|b| - 2]))
  {
    var out := InferShape(a, b, transA, transB, broadcast).value[0];
    var batch := Batch(a[..|a| - 2], b[..|b| - 2], broadcast);
    assert out[..|out| - 2] == batch;
  }

  /**
   * A=[2,3,4] times B=[2,4,5] is [2,3,5]; the same with A given as [2,4,3] and `transA`; and
   * inner dimensions 4 and 5 do not multiply.
   */
  lemma Examples(broadcast: (Shape, Shape) -> Shape)
    requires broadcast([2], [2]) == [2]
    ensures InferShape([2, 3, 4], [2, 4, 5], false, false, broadcast) == Some([[2, 3, 5]])
    ensures InferShape([2, 4, 3], [2, 4, 5], true, false, broadcast) == Some([[2, 3, 5]])
    ensures InferShape([2, 3, 4], [2, 5, 5], false, false, broadcast) == None
  {
    assert [2, 3, 4][..1] == [2] && [2, 4, 5][..1] == [2] && [2, 4, 3][..1] == [2];
    assert Batch([2], [2], broadcast) + [3, 5] == [2, 3, 5];
  }
}
