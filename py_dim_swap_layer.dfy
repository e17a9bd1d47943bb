/**
 * The dimension-swap Python layer: its parameter string is a comma-separated
 * axis order; reshape gives the top blob the bottom shape reordered by that
 * order and computes the inverse order; forward transposes the bottom data
 * into the top, backward transposes the top gradient back by the inverse
 * order.
 *
 * A raised Python exception is a `Fail` outcome carrying its class; Python
 * does not undo the assignments made before the exception, and neither does
 * the model.
 */
module DimSwapLayer {
  import opened Wrappers
  import opened Shapes
  import opened Permutations
  import opened NumpyTranspose
  import opened PyText
  import opened Blobs

  datatype PyError = AssertionError | IndexError | ValueError

  /** Python's `s[i]` position for an `int` index into a list of length `n`: negative indices count from the end. */
  function PyIndex(n: nat, i: int): (k: Option<nat>)
    ensures k.Some? <==> -(n as int) <= i < n
    ensures k.Some? ==> k.value < n && (k.value == i || k.value == n + i)
  {
    if 0 <= i < n then Some(i) else if -(n as int) <= i < 0 then Some(n + i) else None
  }

  /** `[bshape[i] for i in order]`, `None` where Python raises `IndexError`. */
  function SwappedShape(bshape: seq<nat>, order: seq<int>): (t: Option<seq<nat>>)
    ensures t.Some? <==> forall k :: 0 <= k < |order| ==> PyIndex(|bshape|, order[k]).Some?
    ensures t.Some? ==> (|t.value| == |order| &&
              forall k :: 0 <= k < |order| ==> t.value[k] == bshape[PyIndex(|bshape|, order[k]).value])
  {
    if forall k :: 0 <= k < |order| ==> PyIndex(|bshape|, order[k]).Some? then
      Some(seq(|order|, k requires 0 <= k < |order| => bshape[PyIndex(|bshape|, order[k]).value]))
    else
      None
  }

  /** `[order.index(i) for i in range(len(order))]`, `None` where Python raises `ValueError`. */
  function ReverseOrder(order: seq<int>): (rev: Option<seq<int>>)
    ensures rev.Some? <==> Covers(order)
    ensures rev.Some? ==> rev.value == InversePerm(order)
  {
    if Covers(order) then Some(InversePerm(order)) else None
  }

  /** For a permutation of the axes, the swapped shape is the bottom shape reordered by `order`. */
  lemma SwappedShapeOfPermutation(bshape: seq<nat>, order: seq<int>)
    requires IsPermutation(order) && |order| == |bshape|
    ensures SwappedShape(bshape, order) == Some(Permute(bshape, order))
  {
    var t := SwappedShape(bshape, order);
    assert t.Some?;
    assert t.value == Permute(bshape, order);
  }

  /**
   * Reshape gets through its three checks (every entry of `order` indexes
   * the bottom shape, `order` has one entry per axis, every axis occurs in
   * `order`) exactly when `order` is a permutation of the bottom's axes.
   */
  lemma ReshapeChecksIffPermutation(bshape: seq<nat>, order: seq<int>)
    ensures (SwappedShape(bshape, order).Some? && |order| == |bshape| && ReverseOrder(order).Some?) <==>
            (|order| == |bshape| && IsPermutation(order))
  {
    if |order| == |bshape| && Covers(order) {
      CoversIsPermutation(order);
    }
  }

  class DimensionSwapLayer {
    /** The layer's `param_str`. */
    const paramStr: string
    var order: seq<int>
    var reverseOrder: seq<int>

    constructor (paramStr: string)
      ensures this.paramStr == paramStr && order == [] && reverseOrder == []
    {
      this.paramStr := paramStr;
      order := [];
      reverseOrder := [];
    }

    /** Checks for one bottom and one top, then parses the axis order from the parameter string. */
    method Setup(bottom: seq<Blob>, top: seq<Blob>) returns (r: Outcome<PyError>)
      modifies this
      ensures reverseOrder == old(reverseOrder)
      ensures r == Fail(AssertionError) <==> |bottom| != 1 || |top| != |bottom|
      ensures r == Pass <==> |bottom| == 1 && |top| == 1 && ParseIntList(paramStr).Some?
      ensures r == Pass ==> order == ParseIntList(paramStr).value
      ensures r != Pass ==> order == old(order)
      ensures r.Fail? ==> r.error == AssertionError || r.error == ValueError
    {
      if |bottom| != 1 {
        return Fail(AssertionError);
      }
      if |bottom| != |top| {
        return Fail(AssertionError);
      }
      var parsed := ParseIntList(paramStr);
      if parsed.None? {
        return Fail(ValueError);
      }
      order := parsed.value;
      r := Pass;
    }

    /**
     * Gives the top the bottom shape reordered by `order`, then checks that
     * `order` has one entry per axis and computes the inverse order. The top
     * is reshaped before that check, so a failing assertion leaves it reshaped.
     */
    method Reshape(bottom: Blob, top: Blob) returns (r: Outcome<PyError>)
      requires bottom != top
      modifies this, top
      ensures order == old(order) && bottom.shape == old(bottom.shape)
      ensures r.Pass? <==> |order| == |bottom.shape| && IsPermutation(order)
      ensures r.Pass? ==> top.shape == Permute(bottom.shape, order) && top.Valid() &&
                          reverseOrder == InversePerm(order) &&
                          Permute(top.shape, reverseOrder) == bottom.shape
      ensures SwappedShape(bottom.shape, order).None? ==>
                r == Fail(IndexError) && unchanged(top) && reverseOrder == old(reverseOrder)
      ensures SwappedShape(bottom.shape, order).Some? ==>
                top.shape == SwappedShape(bottom.shape, order).value && top.Valid()
      ensures SwappedShape(bottom.shape, order).Some? && |order| != |bottom.shape| ==>
                r == Fail(AssertionError) && reverseOrder == old(reverseOrder)
      ensures SwappedShape(bottom.shape, order).Some? && |order| == |bottom.shape| && !Covers(order) ==>
                r == Fail(ValueError) && reverseOrder == old(reverseOrder)
    {
      ReshapeChecksIffPermutation(bottom.shape, order);
      var bshape := bottom.shape;
      var tshape := SwappedShape(bshape, order);
      if tshape.None? {
        return Fail(IndexError);
      }
      top.Reshape(tshape.value);
      if |order| != |bshape| {
        return Fail(AssertionError);
      }
      var rev := ReverseOrder(order);
      if rev.None? {
        return Fail(ValueError);
      }
      reverseOrder := rev.value;
      SwappedShapeOfPermutation(bshape, order);
      PermuteInverse(bshape, order);
      r := Pass;
    }

    /** `top[0].data[:] = np.transpose(bottom[0].data, order)`. */
    method Forward(bottom: Blob, top: Blob)
      requires bottom != top && bottom.Valid() && top.Valid()
      requires IsPermutation(order) && |order| == |bottom.shape|
      requires top.shape == Permute(bottom.shape, order)
      modifies top
      ensures top.data == Transpose(bottom.data, bottom.shape, order)
      ensures top.shape == old(top.shape) && top.diff == old(top.diff) && top.Valid()
    {
      CountPermute(bottom.shape, order);
      top.data := Transpose(bottom.data, bottom.shape, order);
    }

    /**
     * `bottom[0].diff[:] = np.transpose(top[0].diff, reverse_order)` when
     * `prop_down[0]` holds; an empty `prop_down` raises `IndexError`.
     */
    method Backward(top: Blob, propagateDown: seq<bool>, bottom: Blob) returns (r: Outcome<PyError>)
      requires bottom != top && bottom.Valid() && top.Valid()
      requires IsPermutation(order) && |order| == |bottom.shape|
      requires top.shape == Permute(bottom.shape, order) && reverseOrder == InversePerm(order)
      modifies bottom
      ensures IsPermutation(reverseOrder)
      ensures r == Fail(IndexError) <==> |propagateDown| == 0
      ensures r.Pass? <==> |propagateDown| > 0
      ensures r.Pass? && propagateDown[0] ==> bottom.diff == Transpose(top.diff, top.shape, reverseOrder)
      ensures !(r.Pass? && propagateDown[0]) ==> bottom.diff == old(bottom.diff)
      ensures bottom.shape == old(bottom.shape) && bottom.data == old(bottom.data) && bottom.Valid()
    {
      InverseIsPermutation(order);
      CountPermute(bottom.shape, order);
      if |propagateDown| == 0 {
        return Fail(IndexError);
      }
      if propagateDown[0] {
        bottom.diff := Transpose(top.diff, top.shape, reverseOrder);
      }
      r := Pass;
    }
  }
}
