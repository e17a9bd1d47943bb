/**
 * `numpy.transpose(a, axes)` on a C-contiguous array, followed by the copy
 * of the result into another C-contiguous buffer (`b[:] = ...`): the flat
 * row-major data of the result.
 *
 * With `t = Permute(shape, axes)` the result has shape `t`, and the element
 * of the result at multi-index `i` is the element of `a` at the multi-index
 * `j` with `j[axes[k]] == i[k]` for every axis `k`.
 */
module NumpyTranspose {
  import opened Shapes
  import opened Permutations

  /** Flat position in the source of the element landing at flat position `o` of the result. */
  function SourceOffset(o: nat, shape: seq<nat>, axes: seq<int>): (src: nat)
    requires IsPermutation(axes) && |axes| == |shape|
    requires o < Count(Permute(shape, axes))
    ensures src < Count(shape)
  {
    var t := Permute(shape, axes);
    var i := Unravel(o, t);
    InverseCancels(axes);
    var j := Permute(i, InversePerm(axes));
    assert InBounds(j, shape);
    Offset(j, shape)
  }

  /** The flat data of `numpy.transpose(data.reshape(shape), axes)`. */
  function Transpose(data: seq<real>, shape: seq<nat>, axes: seq<int>): (r: seq<real>)
    requires IsPermutation(axes) && |axes| == |shape|
    requires |data| == Count(shape)
    ensures |r| == |data|
  {
    CountPermute(shape, axes);
    seq(Count(Permute(shape, axes)), o requires 0 <= o < Count(Permute(shape, axes)) =>
      data[SourceOffset(o, shape, axes)])
  }

  /** Position `o` of the result holds the source element at `SourceOffset(o, ...)`. */
  lemma TransposeAt(data: seq<real>, shape: seq<nat>, axes: seq<int>, o: nat)
    requires IsPermutation(axes) && |axes| == |shape|
    requires |data| == Count(shape)
    requires o < Count(Permute(shape, axes))
    ensures o < |Transpose(data, shape, axes)|
    ensures Transpose(data, shape, axes)[o] == data[SourceOffset(o, shape, axes)]
  {
    CountPermute(shape, axes);
  }

  /**
   * The element of the source at multi-index `j` appears in the result at
   * multi-index `Permute(j, axes)`, that is at the `i` with `i[k] == j[axes[k]]`.
   */
  lemma TransposeElement(data: seq<real>, shape: seq<nat>, axes: seq<int>, j: seq<int>)
    requires IsPermutation(axes) && |axes| == |shape|
    requires |data| == Count(shape)
    requires InBounds(j, shape)
    ensures InBounds(Permute(j, axes), Permute(shape, axes))
    ensures Transpose(data, shape, axes)[Offset(Permute(j, axes), Permute(shape, axes))] ==
            data[Offset(j, shape)]
  {
    var t := Permute(shape, axes);
    var i := Permute(j, axes);
    PermuteInBounds(j, shape, axes);
    var o := Offset(i, t);
    UnravelOffset(i, t);
    PermuteInverse(j, axes);
    assert SourceOffset(o, shape, axes) == Offset(j, shape);
    TransposeAt(data, shape, axes, o);
  }

  /** One position of the round trip: position `o` of the source comes back to `o`. */
  lemma RoundTripAt(data: seq<real>, shape: seq<nat>, axes: seq<int>, o: nat)
    requires IsPermutation(axes) && |axes| == |shape|
    requires |data| == Count(shape) && o < |data|
    requires IsPermutation(InversePerm(axes)) && Permute(Permute(shape, axes), InversePerm(axes)) == shape
    ensures var y := Transpose(data, shape, axes);
            |y| == Count(Permute(shape, axes)) &&
            Transpose(y, Permute(shape, axes), InversePerm(axes))[o] == data[o]
  {
    var t := Permute(shape, axes);
    var inv := InversePerm(axes);
    CountPermute(shape, axes);
    var y := Transpose(data, shape, axes);
    var j := Unravel(o, shape);
    var i := Permute(j, axes);
    TransposeElement(data, shape, axes, j);
    TransposeElement(y, t, inv, i);
    PermuteInverse(j, axes);
    OffsetUnravel(o, shape);
  }

  /** Transposing by `axes` and then by the inverse order restores the data. */
  lemma TransposeRoundTrip(data: seq<real>, shape: seq<nat>, axes: seq<int>)
    requires IsPermutation(axes) && |axes| == |shape|
    requires |data| == Count(shape)
    ensures IsPermutation(InversePerm(axes))
    ensures Permute(Permute(shape, axes), InversePerm(axes)) == shape
    ensures Transpose(Transpose(data, shape, axes), Permute(shape, axes), InversePerm(axes)) == data
  {
    InverseIsPermutation(axes);
    PermuteInverse(shape, axes);
    CountPermute(shape, axes);
    var z := Transpose(Transpose(data, shape, axes), Permute(shape, axes), InversePerm(axes));
    forall o | 0 <= o < |data|
      ensures z[o] == data[o]
    {
      RoundTripAt(data, shape, axes, o);
    }
  }

  /** Transposing by the identity order copies the data. */
  lemma TransposeIdentity(data: seq<real>, shape: seq<nat>, axes: seq<int>)
    requires |axes| == |shape| && forall k :: 0 <= k < |axes| ==> axes[k] == k
    requires |data| == Count(shape)
    ensures IsPermutation(axes)
    ensures Transpose(data, shape, axes) == data
  {
    assert IsPermutation(axes) by {
      forall v | 0 <= v < |axes|
        ensures v in axes
      {
        assert axes[v] == v;
      }
    }
    assert Permute(shape, axes) == shape;
    forall o | 0 <= o < |data|
      ensures Transpose(data, shape, axes)[o] == data[o]
    {
      var j := Unravel(o, shape);
      TransposeElement(data, shape, axes, j);
      assert Permute(j, axes) == j;
      OffsetUnravel(o, shape);
    }
  }
}
