/**
 * Output-shape inference of the Concat operator (`ConcatObj::inferShape`), following the ONNX
 * Concat-13 operator: every input has the rank of the first and agrees with it off the
 * concatenation axis, and the output's extent on that axis is the sum of the inputs' extents.
 * `dim` is the axis after normalisation, already within the first input's rank.
 */
module Concat {
  import opened Common

  /** Every input has an axis `dim`. */
  predicate HasAxis(inputs: seq<Shape>, dim: nat) {
    forall i :: 0 <= i < |inputs| ==> dim < |inputs[i]|
  }

  /** The inputs' extents on axis `dim`, added up. */
  function AxisSum(inputs: seq<Shape>, dim: nat): int
    requires HasAxis(inputs, dim)
  {
    if inputs == [] then 0
    else AxisSum(inputs[..|inputs| - 1], dim) + inputs[|inputs| - 1][dim]
  }

  /** Every input has the first input's rank and agrees with it on every axis but `dim`. */
  predicate Compatible(inputs: seq<Shape>, dim: nat)
    requires |inputs| >= 1
  {
    forall i :: 0 <= i < |inputs| ==>
      && |inputs[i]| == |inputs[0]|
      && forall d :: 0 <= d < |inputs[0]| && d != dim ==> inputs[i][d] == inputs[0][d]
  }

  /** The declarative shape rule: the first input's shape with axis `dim` replaced by the sum. */
  function ConcatShape(inputs: seq<Shape>, dim: nat): Option<seq<Shape>>
    requires |inputs| >= 1 && dim < |inputs[0]|
  {
    if Compatible(inputs, dim) then Some([inputs[0][dim := AxisSum(inputs, dim)]]) else None
  }

  /**
   * `inferShape`: copies the first shape and folds the other inputs into it one at a time,
   * failing at the first rank or axis mismatch.
   */
  method InferShape(inputs: seq<Shape>, dim: nat) returns (r: Option<seq<Shape>>)
    requires |inputs| >= 1 && dim < |inputs[0]|
    ensures r == ConcatShape(inputs, dim)
  {
    var dims := inputs[0];
    var rank := |inputs[0]|;
    assert inputs[..1] == [inputs[0]];
    assert AxisSum(inputs[..1], dim) == inputs[0][dim] by {
      assert inputs[..1][..0] == [];
    }
    var i := 1;
    while i < |inputs|
      invariant 1 <= i <= |inputs|
      invariant Compatible(inputs[..i], dim)
      invariant dims == inputs[0][dim := AxisSum(inputs[..i], dim)]
    {
      if |inputs[i]| != rank {
        return None;
      }
      var other := inputs[i];
      var d := 0;
      while d < rank
        invariant d <= rank
        invariant forall e :: 0 <= e < d && e != dim ==> other[e] == inputs[0][e]
      {
        if d != dim && other[d] != dims[d] {
          return None;
        }
        d := d + 1;
      }
      dims := dims[dim := dims[dim] + other[dim]];
      assert inputs[..i + 1][..i] == inputs[..i];
      i := i + 1;
    }
    assert inputs[..i] == inputs;
    return Some([dims]);
  }

  /** Sums over consecutive runs of inputs add up. */
  lemma {:induction false} AxisSumAppend(xs: seq<Shape>, ys: seq<Shape>, dim: nat)
    requires HasAxis(xs, dim) && HasAxis(ys, dim)
    ensures HasAxis(xs + ys, dim)
    ensures AxisSum(xs + ys, dim) == AxisSum(xs, dim) + AxisSum(ys, dim)
    decreases |ys|
  {
    if ys != [] {
      var ys' := ys[..|ys| - 1];
      assert (xs + ys)[..|xs + ys| - 1] == xs + ys';
      AxisSumAppend(xs, ys', dim);
    } else {
      assert xs + ys == xs;
    }
  }

  /** A single input is its own concatenation. */
  lemma SingleInput(s: Shape, dim: nat)
    requires dim < |s|
    ensures ConcatShape([s], dim) == Some([s])
  {
    assert [s][..|[s]| - 1] == [];
    assert AxisSum([s], dim) == s[dim];
    assert Compatible([s], dim);
    assert s[dim := s[dim]] == s;
  }

  /**
   * Concatenating in two stages gives the same shape as concatenating all inputs at once: the
   * inputs `xs + ys` succeed exactly when `xs` does and the result of `xs` followed by `ys` does,
   * with the same output.
   */
  lemma {:induction false} TwoStages(xs: seq<Shape>, ys: seq<Shape>, dim: nat)
    requires |xs| >= 1 && dim < |xs[0]|
    ensures ConcatShape(xs, dim).None? ==> ConcatShape(xs + ys, dim).None?
    ensures ConcatShape(xs, dim).Some? ==>
              ConcatShape(xs + ys, dim) == ConcatShape([ConcatShape(xs, dim).value[0]] + ys, dim)
  {
    var all := xs + ys;
    assert all[0] == xs[0];
    if !Compatible(xs, dim) {
      var i :| 0 <= i < |xs| && !(
        && |xs[i]| == |xs[0]|
        && forall d :: 0 <= d < |xs[0]| && d != dim ==> xs[i][d] == xs[0][d]);
      assert all[i] == xs[i];
    } else {
      var head := xs[0][dim := AxisSum(xs, dim)];
      var staged := [head] + ys;
      assert staged[0] == head;
      // The two inputs lists agree on compatibility: `head` agrees with `xs[0]` off `dim`.
      if Compatible(all, dim) {
        forall i | 0 <= i < |staged|
          ensures |staged[i]| == |staged[0]|
          ensures forall d :: 0 <= d < |staged[0]| && d != dim ==> staged[i][d] == staged[0][d]
        {
          if i > 0 {
            assert staged[i] == all[|xs| + i - 1];
          }
        }
        assert HasAxis(ys, dim) by {
          forall j | 0 <= j < |ys| ensures dim < |ys[j]| {
            assert ys[j] == all[|xs| + j];
          }
        }
        assert Compatible(staged, dim);
        AxisSumAppend(xs, ys, dim);
        AxisSumAppend([head], ys, dim);
        assert [head][..|[head]| - 1] == [];
        assert AxisSum([head], dim) == head[dim];
        assert AxisSum(staged, dim) == AxisSum(all, dim);
        assert head[dim := AxisSum(staged, dim)] == xs[0][dim := AxisSum(all, dim)];
      } else {
        var i :| 0 <= i < |all| && !(
          && |all[i]| == |all[0]|
          && forall d :: 0 <= d < |all[0]| && d != dim ==> all[i][d] == all[0][d]);
        assert i >= |xs|;
        assert all[i] == staged[i - |xs| + 1];
      }
    }
  }

  /** [2,3] and [2,5] on axis 1 give [2,8]; [2,3] and [3,3] on axis 1 disagree on axis 0. */
  lemma Examples()
    ensures ConcatShape([[2, 3], [2, 5]], 1) == Some([[2, 8]])
    ensures ConcatShape([[2, 3], [3, 3]], 1) == None
  {
    var xs: seq<Shape> := [[2, 3], [2, 5]];
    assert xs[..1][..0] == [] && xs[..1] == [[2, 3]];
    assert AxisSum(xs, 1) == 8;
    assert Compatible(xs, 1);
    assert xs[0][1 := 8] == [2, 8];
    var ys: seq<Shape> := [[2, 3], [3, 3]];
    assert ys[1][0] != ys[0][0];
    assert !Compatible(ys, 1);
  }
}
