/**
 * `calculate_cascade_frustums`: the view frustum is cut along its depth into
 * `count` cascades for shadow mapping.  Split `i < count` comes from a blend of a
 * logarithmic and a uniform split; split `count` is the far plane.
 */
module Cascades {
  import opened Scene

  /**
   * The split formula `lambda * n * (f/n)^(i/count) + (1 - lambda) * (n + (f - n) * i/count)`
   * for split `i` of `count` between `n` and `f`; its float arithmetic is not modelled.
   */
  type SplitFormula = (Scalar, Scalar, nat, nat) -> Scalar

  /** Split `i` of `count` in `view`: the formula below `count`, the far plane at `count`. */
  function Split(formula: SplitFormula, view: Frustum, count: nat, i: nat): Scalar
  {
    if i < count then formula(view.zNear, view.zFar, i, count) else view.zFar
  }

  /** Cascade `i` spans splits `i` and `i + 1` and keeps the view's field of view, aspect and view matrix. */
  function CascadeFrustums(formula: SplitFormula, view: Frustum, count: nat): seq<Frustum>
  {
    seq(count, i requires 0 <= i < count =>
      Frustum(view.fovy, view.aspect, Split(formula, view, count, i), Split(formula, view, count, i + 1), view.view))
  }

  /** The cascades tile the view's depth range: each starts where the previous ends, and the last ends at the far plane. */
  lemma CascadesChain(formula: SplitFormula, view: Frustum, count: nat)
    ensures |CascadeFrustums(formula, view, count)| == count
    ensures forall i :: 0 <= i < count - 1 ==>
      CascadeFrustums(formula, view, count)[i].zFar == CascadeFrustums(formula, view, count)[i + 1].zNear
    ensures count > 0 ==> CascadeFrustums(formula, view, count)[count - 1].zFar == view.zFar
    ensures count > 0 ==> CascadeFrustums(formula, view, count)[0].zNear == formula(view.zNear, view.zFar, 0, count)
  {
  }

  /**
   * `calculate_cascade_frustums(view_frustum, cascade_frustums)`: `count` is the
   * length of `cascades`; the `count + 1` splits are computed first, then every
   * cascade is overwritten in place.
   */
  method CalculateCascadeFrustums(formula: SplitFormula, view: Frustum, cascades: seq<Frustum>) returns (r: seq<Frustum>)
    ensures r == CascadeFrustums(formula, view, |cascades|)
    ensures |r| == |cascades|
    ensures forall i :: 0 <= i < |r| ==> r[i].fovy == view.fovy && r[i].aspect == view.aspect && r[i].view == view.view
    ensures forall i :: 0 <= i < |r| - 1 ==> r[i].zFar == r[i + 1].zNear
    ensures |r| > 0 ==> r[|r| - 1].zFar == view.zFar
  {
    var count := |cascades|;
    var splits: seq<Scalar> := [];
    for i := 0 to count
      invariant |splits| == i
      invariant forall k :: 0 <= k < i ==> splits[k] == Split(formula, view, count, k)
    {
      splits := splits + [formula(view.zNear, view.zFar, i, count)];
    }
    splits := splits + [view.zFar];
    r := cascades;
    for i := 0 to count
      invariant |r| == count
      invariant forall k :: 0 <= k < i ==> r[k] == CascadeFrustums(formula, view, count)[k]
    {
      r := r[i := Frustum(view.fovy, view.aspect, splits[i], splits[i + 1], view.view)];
    }
  }
}
