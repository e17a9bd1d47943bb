/**
 * A blob: an N-dimensional array of values (`data`) together with an array
 * of the same size holding gradients (`diff`), both stored row-major.
 */
module Blobs {
  import opened Shapes

  /** `s` cut or zero-padded to length `n`, keeping its common prefix. */
  function Resized(s: seq<real>, n: nat): (r: seq<real>)
    ensures |r| == n
    ensures forall i :: 0 <= i < n && i < |s| ==> r[i] == s[i]
    ensures forall i :: |s| <= i < n ==> r[i] == 0.0
  {
    seq(n, i requires 0 <= i < n => if i < |s| then s[i] else 0.0)
  }

  class Blob {
    var shape: seq<nat>
    var data: seq<real>
    var diff: seq<real>

    /** Both buffers hold exactly one value per element of the shape. */
    predicate Valid()
      reads this
    {
      |data| == Count(shape) && |diff| == Count(shape)
    }

    constructor (shape: seq<nat>)
      ensures this.shape == shape
      ensures data == Resized([], Count(shape)) && diff == Resized([], Count(shape))
      ensures Valid()
    {
      this.shape := shape;
      data := Resized([], Count(shape));
      diff := Resized([], Count(shape));
    }

    /** Gives the blob a new shape; the buffers are resized, keeping what fits. */
    method Reshape(newShape: seq<nat>)
      modifies this
      ensures shape == newShape
      ensures data == Resized(old(data), Count(newShape))
      ensures diff == Resized(old(diff), Count(newShape))
      ensures Valid()
    {
      shape := newShape;
      data := Resized(data, Count(newShape));
      diff := Resized(diff, Count(newShape));
    }
  }
}
