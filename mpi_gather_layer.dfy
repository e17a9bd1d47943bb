/**
 * The MPI gather layer, seen from one process of the group: forward gathers
 * every rank's bottom blobs into the top blobs of rank 0 (concatenated along
 * dimension 0 in rank order), backward scatters rank 0's top gradients back
 * to the bottom gradients of every rank.
 *
 * What the other ranks hold cannot be read from one process, so it enters
 * as a parameter: `sent[i][r]` is rank `r`'s send buffer for blob `i` in
 * forward, and `rootDiff[i]` is rank 0's top gradient for blob `i` in
 * backward.
 */
module MPIGatherLayer {
  import opened Wrappers
  import opened Shapes
  import opened Blobs
  import opened Collectives

  /** The process group: `size` ranks (`Caffe::mpi_size()`), this process being `rank`. */
  datatype World = World(size: nat, rank: nat)
  {
    predicate Valid()
    {
      rank < size
    }
  }

  datatype SetupError = BlobCountMismatch

  /** The layer accepts as many top blobs as bottom blobs, and nothing else. */
  method LayerSetUp(bottom: seq<Blob>, top: seq<Blob>) returns (r: Outcome<SetupError>)
    ensures r.Pass? <==> |bottom| == |top|
    ensures r.Fail? ==> r.error == BlobCountMismatch
  {
    if |bottom| == |top| {
      r := Pass;
    } else {
      r := Fail(BlobCountMismatch);
    }
  }

  /** The shape of a gathered blob: dimension 0 is multiplied by the number of ranks. */
  function GatheredShape(shape: seq<nat>, size: nat): (g: seq<nat>)
    requires |shape| > 0
    ensures |g| == |shape| && g[0] == shape[0] * size
    ensures forall k :: 1 <= k < |shape| ==> g[k] == shape[k]
    ensures Count(g) == Count(shape) * size
  {
    var g := shape[0 := shape[0] * size];
    assert g[1..] == shape[1..];
    MulAssoc(shape[0], size, Count(shape[1..]));
    MulAssoc(shape[0], Count(shape[1..]), size);
    MulCommute(size, Count(shape[1..]));
    g
  }

  lemma MulCommute(a: nat, b: nat)
    ensures a * b == b * a
  {
  }

  /** Blobs of the list are pairwise different objects. */
  predicate Distinct(blobs: seq<Blob>)
  {
    forall i, j :: 0 <= i < j < |blobs| ==> blobs[i] != blobs[j]
  }

  /** No blob of `a` is a blob of `b`. */
  predicate Disjoint(a: seq<Blob>, b: seq<Blob>)
  {
    forall i, j :: 0 <= i < |a| && 0 <= j < |b| ==> a[i] != b[j]
  }

  /** Each top blob `i` takes the shape of bottom blob `i` with dimension 0 scaled by the group size. */
  method Reshape(w: World, bottom: seq<Blob>, top: seq<Blob>)
    requires |bottom| <= |top|
    requires forall i :: 0 <= i < |bottom| ==> |bottom[i].shape| > 0
    requires Distinct(top) && Disjoint(top, bottom)
    modifies set i | 0 <= i < |bottom| :: top[i]
    ensures forall i :: 0 <= i < |bottom| ==>
              top[i].shape == GatheredShape(bottom[i].shape, w.size) && top[i].Valid() &&
              Count(top[i].shape) == Count(bottom[i].shape) * w.size
    ensures forall i :: 0 <= i < |bottom| ==>
              top[i].data == Resized(old(top[i].data), Count(top[i].shape)) &&
              top[i].diff == Resized(old(top[i].diff), Count(top[i].shape))
  {
    for i := 0 to |bottom|
      invariant forall j :: 0 <= j < |bottom| ==> bottom[j].shape == old(bottom[j].shape)
      invariant forall j :: 0 <= j < i ==>
                  top[j].shape == GatheredShape(bottom[j].shape, w.size) && top[j].Valid() &&
                  top[j].data == Resized(old(top[j].data), Count(top[j].shape)) &&
                  top[j].diff == Resized(old(top[j].diff), Count(top[j].shape))
      invariant forall j :: i <= j < |bottom| ==>
                  top[j].data == old(top[j].data) && top[j].diff == old(top[j].diff)
    {
      var shape := GatheredShape(bottom[i].shape, w.size);
      top[i].Reshape(shape);
    }
  }

  /** Segment `[r * c, (r + 1) * c)` of `buf` is `shards[r]`, for every rank `r`. */
  predicate HoldsShards(buf: seq<real>, shards: seq<seq<real>>, c: nat)
  {
    forall r :: 0 <= r < |shards| ==> r * c + c <= |buf| && buf[r * c..r * c + c] == shards[r]
  }

  /**
   * `data` is what a gather of `c` elements from each of `shards` leaves in a
   * receive buffer that held `before`: at rank 0 the shards in rank order
   * followed by what was beyond them, elsewhere `before` untouched.
   */
  predicate Gathered(w: World, data: seq<real>, before: seq<real>, shards: seq<seq<real>>, c: nat)
    requires |shards| == w.size && forall r :: 0 <= r < w.size ==> |shards[r]| == c
    requires w.rank == 0 ==> |before| >= w.size * c
  {
    if w.rank == 0 then
      data == Gather(shards, c) + before[w.size * c..] && HoldsShards(data, shards, c)
    else
      data == before
  }

  /** One `MPI_Gather` of `c` elements per rank into the data of `t`, which only rank 0 receives. */
  method GatherInto(w: World, c: nat, shards: seq<seq<real>>, t: Blob)
    requires w.Valid() && |shards| == w.size
    requires forall r :: 0 <= r < w.size ==> |shards[r]| == c
    requires w.rank == 0 ==> |t.data| >= w.size * c
    modifies t
    ensures t.shape == old(t.shape) && t.diff == old(t.diff)
    ensures Gathered(w, t.data, old(t.data), shards, c)
  {
    if w.rank == 0 {
      var rest := t.data[w.size * c..];
      ShardsLandInRankOrder(shards, c, rest);
      t.data := Gather(shards, c) + rest;
    }
  }

  /**
   * Forward: rank 0 receives, for every blob `i`, the `count(bottom[i])`
   * elements of every rank's bottom blob `i`, rank `r`'s in segment
   * `[r * c, (r + 1) * c)` of its top blob `i`; other ranks receive nothing.
   */
  method ForwardCpu(w: World, bottom: seq<Blob>, top: seq<Blob>, sent: seq<seq<seq<real>>>)
    requires w.Valid()
    requires |bottom| <= |top| && |sent| == |bottom|
    requires Disjoint(top, bottom) && Distinct(top)
    requires forall i :: 0 <= i < |bottom| ==> bottom[i].Valid()
    requires forall i :: 0 <= i < |bottom| ==>
               |sent[i]| == w.size && sent[i][w.rank] == bottom[i].data &&
               forall r :: 0 <= r < w.size ==> |sent[i][r]| == Count(bottom[i].shape)
    requires w.rank == 0 ==> forall i :: 0 <= i < |bottom| ==>
               |top[i].data| >= w.size * Count(bottom[i].shape)
    modifies set i | 0 <= i < |bottom| :: top[i]
    ensures forall i :: 0 <= i < |bottom| ==>
              top[i].shape == old(top[i].shape) && top[i].diff == old(top[i].diff)
    ensures forall i :: 0 <= i < |bottom| ==>
              Gathered(w, top[i].data, old(top[i].data), sent[i], Count(bottom[i].shape))
  {
    for i := 0 to |bottom|
      invariant forall j :: 0 <= j < |bottom| ==>
                  top[j].shape == old(top[j].shape) && top[j].diff == old(top[j].diff)
      invariant forall j :: 0 <= j < i ==>
                  Gathered(w, top[j].data, old(top[j].data), sent[j], Count(bottom[j].shape))
      invariant forall j :: i <= j < |bottom| ==> top[j].data == old(top[j].data)
    {
      GatherInto(w, Count(bottom[i].shape), sent[i], top[i]);
    }
  }

  /** In the root's buffer `Gather(shards, c) + rest`, rank `r`'s shard is segment `[r * c, (r + 1) * c)`. */
  lemma ShardsLandInRankOrder(shards: seq<seq<real>>, c: nat, rest: seq<real>)
    requires forall r :: 0 <= r < |shards| ==> |shards[r]| == c
    ensures HoldsShards(Gather(shards, c) + rest, shards, c)
  {
    var g := Gather(shards, c);
    GatherSegments(shards, c);
    forall r | 0 <= r < |shards|
      ensures (g + rest)[r * c..r * c + c] == shards[r]
    {
      assert (g + rest)[r * c..r * c + c] == g[r * c..r * c + c];
      assert shards[r][..c] == shards[r];
    }
  }

  /** `buf` is rank `w.rank`'s segment `[rank * c, (rank + 1) * c)` of the root's send buffer `rootBuf`. */
  predicate ReceivedShard(buf: seq<real>, rootBuf: seq<real>, c: nat, w: World)
    requires w.Valid() && |rootBuf| >= w.size * c
  {
    buf == Scatter(rootBuf, c, w.size)[w.rank] &&
    w.rank * c + c <= |rootBuf| && buf == rootBuf[w.rank * c..w.rank * c + c]
  }

  /** One `MPI_Scatter` of `c` elements per rank from rank 0's `rootBuf` into the gradient of `b`. */
  method ScatterInto(w: World, c: nat, rootBuf: seq<real>, b: Blob)
    requires w.Valid() && |rootBuf| >= w.size * c
    modifies b
    ensures b.shape == old(b.shape) && b.data == old(b.data)
    ensures ReceivedShard(b.diff, rootBuf, c, w)
  {
    ScatterSegment(rootBuf, c, w.size, w.rank);
    b.diff := Scatter(rootBuf, c, w.size)[w.rank];
  }

  /**
   * Backward: every rank receives, for every blob `i`, its own segment
   * `[rank * c, (rank + 1) * c)` of rank 0's top gradient `i` as its bottom
   * gradient `i`, with `c = count(bottom[i])`. The propagation flags are not
   * consulted.
   */
  method BackwardCpu(w: World, top: seq<Blob>, propagateDown: seq<bool>, bottom: seq<Blob>,
                     rootDiff: seq<seq<real>>)
    requires w.Valid()
    requires |bottom| <= |top| && |rootDiff| == |bottom|
    requires Disjoint(top, bottom) && Distinct(bottom)
    requires forall i :: 0 <= i < |bottom| ==> bottom[i].Valid()
    requires w.rank == 0 ==> forall i :: 0 <= i < |bottom| ==> rootDiff[i] == top[i].diff
    requires forall i :: 0 <= i < |bottom| ==> |rootDiff[i]| >= w.size * Count(bottom[i].shape)
    modifies set i | 0 <= i < |bottom| :: bottom[i]
    ensures forall i :: 0 <= i < |bottom| ==>
              bottom[i].shape == old(bottom[i].shape) && bottom[i].data == old(bottom[i].data) &&
              bottom[i].Valid()
    ensures forall i :: 0 <= i < |bottom| ==>
              ReceivedShard(bottom[i].diff, rootDiff[i], Count(bottom[i].shape), w)
  {
    for i := 0 to |bottom|
      invariant forall j :: 0 <= j < |bottom| ==>
                  bottom[j].shape == old(bottom[j].shape) && bottom[j].data == old(bottom[j].data)
      invariant forall j :: 0 <= j < i ==>
                  ReceivedShard(bottom[j].diff, rootDiff[j], Count(bottom[j].shape), w)
    {
      ScatterInto(w, Count(bottom[i].shape), rootDiff[i], bottom[i]);
    }
  }

  /**
   * When rank 0 scatters back exactly what it gathered, every rank gets its
   * own shard back: backward hands each rank the data it contributed forward.
   */
  lemma ScatterReturnsShards(shards: seq<seq<real>>, c: nat, rest: seq<real>)
    requires forall r :: 0 <= r < |shards| ==> |shards[r]| == c
    ensures forall r :: 0 <= r < |shards| ==>
              Scatter(Gather(shards, c) + rest, c, |shards|)[r] == shards[r]
  {
    var buf := Gather(shards, c) + rest;
    ShardsLandInRankOrder(shards, c, rest);
    ScatterSegments(buf, c, |shards|);
  }

  /** With a single rank both directions copy the buffer unchanged. */
  lemma SingleRankIsCopy(buf: seq<real>, rest: seq<real>)
    ensures Gather([buf], |buf|) + rest == buf + rest
    ensures Scatter(buf + rest, |buf|, 1)[0] == buf
  {
    SingleRankCopies(buf);
    ScatterSegments(buf + rest, |buf|, 1);
    assert (buf + rest)[0..|buf|] == buf;
  }
}
