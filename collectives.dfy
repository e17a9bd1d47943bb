/**
 * The two rooted collectives the gather layer uses, with root 0, as pure
 * functions over the buffers of all ranks (the MPI standard, version 3.1,
 * sections 5.5 "Gather" and 5.6 "Scatter").
 *
 * A rank's buffer is a sequence of elements; `count` is the number of
 * elements each rank contributes or receives. Only the root's receive buffer
 * is written by a gather, and only the root's send buffer is read by a
 * scatter.
 */
module Collectives {

  /**
   * MPI_Gather to root 0: the root receives the first `count` elements of
   * every rank's send buffer, rank by rank.
   */
  function Gather<T>(sendBufs: seq<seq<T>>, count: nat): (recv: seq<T>)
    requires forall r :: 0 <= r < |sendBufs| ==> |sendBufs[r]| >= count
    ensures |recv| == |sendBufs| * count
  {
    if |sendBufs| == 0 then []
    else sendBufs[0][..count] + Gather(sendBufs[1..], count)
  }

  /**
   * MPI_Scatter from root 0: rank `r` receives elements
   * `[r * count, (r + 1) * count)` of the root's send buffer.
   */
  function Scatter<T>(sendBuf: seq<T>, count: nat, size: nat): (recv: seq<seq<T>>)
    requires |sendBuf| >= size * count
    ensures |recv| == size
    ensures forall r :: 0 <= r < size ==> |recv[r]| == count
  {
    if size == 0 then []
    else [sendBuf[..count]] + Scatter(sendBuf[count..], count, size - 1)
  }

  lemma MulStep(r: nat, count: nat)
    ensures (r + 1) * count == r * count + count
  {
  }

  lemma SliceAfter<T>(head: seq<T>, tail: seq<T>, i: nat, j: nat)
    requires i <= j <= |tail|
    ensures (head + tail)[|head| + i..|head| + j] == tail[i..j]
  {
  }

  /** Rank `r`'s contribution lands in segment `[r * count, (r + 1) * count)` of the root's buffer. */
  lemma {:induction false} GatherSegment<T>(sendBufs: seq<seq<T>>, count: nat, r: nat)
    requires forall q :: 0 <= q < |sendBufs| ==> |sendBufs[q]| >= count
    requires r < |sendBufs|
    ensures r * count + count <= |Gather(sendBufs, count)|
    ensures Gather(sendBufs, count)[r * count..r * count + count] == sendBufs[r][..count]
  {
    var head, tail := sendBufs[0][..count], Gather(sendBufs[1..], count);
    assert Gather(sendBufs, count) == head + tail;
    if r == 0 {
      assert r * count == 0;
    } else {
      var a := (r - 1) * count;
      assert a + count == r * count by { MulStep(r - 1, count); }
      GatherSegment(sendBufs[1..], count, r - 1);
      assert sendBufs[1..][r - 1] == sendBufs[r];
      SliceAfter(head, tail, a, a + count);
    }
  }

  lemma GatherSegments<T>(sendBufs: seq<seq<T>>, count: nat)
    requires forall r :: 0 <= r < |sendBufs| ==> |sendBufs[r]| >= count
    ensures forall r :: 0 <= r < |sendBufs| ==>
              r * count + count <= |Gather(sendBufs, count)| &&
              Gather(sendBufs, count)[r * count..r * count + count] == sendBufs[r][..count]
  {
    forall r | 0 <= r < |sendBufs|
      ensures r * count + count <= |Gather(sendBufs, count)|
      ensures Gather(sendBufs, count)[r * count..r * count + count] == sendBufs[r][..count]
    {
      GatherSegment(sendBufs, count, r);
    }
  }

  /** Rank `r` receives segment `[r * count, (r + 1) * count)` of the root's buffer. */
  lemma {:induction false} ScatterSegment<T>(sendBuf: seq<T>, count: nat, size: nat, r: nat)
    requires |sendBuf| >= size * count
    requires r < size
    ensures r * count + count <= |sendBuf|
    ensures Scatter(sendBuf, count, size)[r] == sendBuf[r * count..r * count + count]
  {
    assert size * count == (size - 1) * count + count by { MulStep(size - 1, count); }
    var rest := sendBuf[count..];
    if r == 0 {
      assert r * count == 0;
    } else {
      var a := (r - 1) * count;
      assert a + count == r * count by { MulStep(r - 1, count); }
      ScatterSegment(rest, count, size - 1, r - 1);
      assert Scatter(sendBuf, count, size)[r] == Scatter(rest, count, size - 1)[r - 1];
      assert rest[a..a + count] == sendBuf[count + a..count + a + count];
    }
  }

  lemma ScatterSegments<T>(sendBuf: seq<T>, count: nat, size: nat)
    requires |sendBuf| >= size * count
    ensures forall r :: 0 <= r < size ==>
              r * count + count <= |sendBuf| &&
              Scatter(sendBuf, count, size)[r] == sendBuf[r * count..r * count + count]
  {
    forall r | 0 <= r < size
      ensures r * count + count <= |sendBuf|
      ensures Scatter(sendBuf, count, size)[r] == sendBuf[r * count..r * count + count]
    {
      ScatterSegment(sendBuf, count, size, r);
    }
  }

  /** Scattering what was gathered gives every rank back its own buffer. */
  lemma {:induction false} ScatterGather<T>(sendBufs: seq<seq<T>>, count: nat)
    requires forall r :: 0 <= r < |sendBufs| ==> |sendBufs[r]| == count
    ensures Scatter(Gather(sendBufs, count), count, |sendBufs|) == sendBufs
  {
    if |sendBufs| > 0 {
      var g := Gather(sendBufs, count);
      ScatterGather(sendBufs[1..], count);
      assert sendBufs[0][..count] == sendBufs[0];
      assert g[..count] == sendBufs[0];
      assert g[count..] == Gather(sendBufs[1..], count);
      assert sendBufs == [sendBufs[0]] + sendBufs[1..];
    }
  }

  /** Gathering what was scattered restores the root's buffer, up to the scattered length. */
  lemma {:induction false} GatherScatter<T>(sendBuf: seq<T>, count: nat, size: nat)
    requires |sendBuf| >= size * count
    ensures Gather(Scatter(sendBuf, count, size), count) == sendBuf[..size * count]
  {
    if size > 0 {
      var s := Scatter(sendBuf, count, size);
      GatherScatter(sendBuf[count..], count, size - 1);
      assert s[1..] == Scatter(sendBuf[count..], count, size - 1);
      assert size * count == count + (size - 1) * count;
      assert sendBuf[..size * count] == sendBuf[..count] + sendBuf[count..][..(size - 1) * count];
    }
  }

  /** With a single rank, a gather and a scatter are plain copies. */
  lemma SingleRankCopies<T>(buf: seq<T>)
    ensures Gather([buf], |buf|) == buf
    ensures Scatter(buf, |buf|, 1) == [buf]
  {
    assert [buf][1..] == [];
    assert buf[..|buf|] == buf;
  }
}
