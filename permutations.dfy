/**
 * Axis orders as Python lists of integers: lookup of the first occurrence
 * of a value (`list.index`), permutations of `0 .. n-1`, reordering a
 * sequence by an axis order, and the inverse of an axis order.
 */
module Permutations {
  import opened Shapes

  /** Index of the first occurrence of `v` in `s`, as Python's `s.index(v)` when `v` occurs. */
  function IndexOf(s: seq<int>, v: int): (k: nat)
    requires v in s
    ensures k < |s| && s[k] == v
    ensures forall j :: 0 <= j < k ==> s[j] != v
  {
    if s[0] == v then 0 else 1 + IndexOf(s[1..], v)
  }

  /** Every value `0 .. |p|-1` occurs in `p`: what a successful `[p.index(i) for i in range(len(p))]` checks. */
  predicate Covers(p: seq<int>)
  {
    forall v :: 0 <= v < |p| ==> v in p
  }

  /** `p` lists each of `0 .. |p|-1` exactly once. */
  predicate IsPermutation(p: seq<int>)
  {
    (forall i :: 0 <= i < |p| ==> 0 <= p[i] < |p|) &&
    (forall i, j :: 0 <= i < j < |p| ==> p[i] != p[j]) &&
    Covers(p)
  }

  /** `s` reordered by `p`: element `a` of the result is `s[p[a]]`. */
  function Permute<T>(s: seq<T>, p: seq<int>): (r: seq<T>)
    requires forall i :: 0 <= i < |p| ==> 0 <= p[i] < |s|
    ensures |r| == |p|
    ensures forall a :: 0 <= a < |p| ==> r[a] == s[p[a]]
  {
    seq(|p|, a requires 0 <= a < |p| => s[p[a]])
  }

  /** The inverse axis order: entry `b` is the position of `b` in `p`. */
  function InversePerm(p: seq<int>): (q: seq<int>)
    requires Covers(p)
    ensures |q| == |p|
    ensures forall b :: 0 <= b < |p| ==> 0 <= q[b] < |p| && p[q[b]] == b
  {
    seq(|p|, b requires 0 <= b < |p| => IndexOf(p, b))
  }

  /** `s` without its element at position `j`. */
  function Drop<T>(s: seq<T>, j: nat): (r: seq<T>)
    requires j < |s|
    ensures |r| == |s| - 1
    ensures forall i :: 0 <= i < j ==> r[i] == s[i]
    ensures forall i :: j <= i < |r| ==> r[i] == s[i + 1]
  {
    s[..j] + s[j + 1..]
  }

  /**
   * Pigeonhole: a list of length `n` in which every value `0 .. n-1` occurs
   * holds nothing else and no value twice.
   */
  lemma {:induction false} CoversIsPermutation(p: seq<int>)
    requires Covers(p)
    ensures IsPermutation(p)
    decreases |p|
  {
    var n := |p|;
    if n > 0 {
      var j := IndexOf(p, n - 1);
      var rest := Drop(p, j);
      forall v | 0 <= v < n - 1
        ensures v in rest
      {
        var k := IndexOf(p, v);
        if k < j {
          assert rest[k] == v;
        } else {
          assert rest[k - 1] == v;
        }
      }
      CoversIsPermutation(rest);
      forall i | 0 <= i < n
        ensures 0 <= p[i] < n
      {
        if i < j {
          assert p[i] == rest[i];
        } else if i > j {
          assert p[i] == rest[i - 1];
        }
      }
      forall i, k | 0 <= i < k < n
        ensures p[i] != p[k]
      {
        if k < j {
          assert p[i] == rest[i] && p[k] == rest[k];
        } else if k == j {
          assert rest[i] == p[i];
        } else if i < j {
          assert p[i] == rest[i] && p[k] == rest[k - 1];
        } else if i == j {
          assert rest[k - 1] == p[k];
        } else {
          assert p[i] == rest[i - 1] && p[k] == rest[k - 1];
        }
      }
    }
  }

  /** In a list without repeats, `index` finds the one position holding the value. */
  lemma IndexOfDistinct(p: seq<int>, a: nat)
    requires a < |p|
    requires forall i, j :: 0 <= i < j < |p| ==> p[i] != p[j]
    ensures IndexOf(p, p[a]) == a
  {
    var k := IndexOf(p, p[a]);
    assert !(a < k) && !(k < a);
  }

  /** The inverse undoes `p` from both sides. */
  lemma InverseCancels(p: seq<int>)
    requires IsPermutation(p)
    ensures forall b :: 0 <= b < |p| ==> p[InversePerm(p)[b]] == b
    ensures forall a :: 0 <= a < |p| ==> InversePerm(p)[p[a]] == a
  {
    forall a | 0 <= a < |p|
      ensures InversePerm(p)[p[a]] == a
    {
      IndexOfDistinct(p, a);
    }
  }

  /** The inverse of a permutation is a permutation. */
  lemma InverseIsPermutation(p: seq<int>)
    requires IsPermutation(p)
    ensures IsPermutation(InversePerm(p))
  {
    var q := InversePerm(p);
    InverseCancels(p);
    forall a | 0 <= a < |q|
      ensures a in q
    {
      assert q[p[a]] == a;
    }
  }

  /** Inverting twice gives back the original order. */
  lemma InverseInverse(p: seq<int>)
    requires IsPermutation(p)
    ensures Covers(InversePerm(p)) && InversePerm(InversePerm(p)) == p
  {
    var q := InversePerm(p);
    InverseIsPermutation(p);
    InverseCancels(p);
    forall a | 0 <= a < |p|
      ensures InversePerm(q)[a] == p[a]
    {
      IndexOfDistinct(q, p[a]);
    }
  }

  /** Reordering by `p` and then by its inverse restores any sequence, and so does the other order. */
  lemma PermuteInverse<T>(s: seq<T>, p: seq<int>)
    requires IsPermutation(p) && |s| == |p|
    ensures Permute(Permute(s, p), InversePerm(p)) == s
    ensures Permute(Permute(s, InversePerm(p)), p) == s
  {
    InverseCancels(p);
  }

  /** A permuted multi-index of a shape is a multi-index of the permuted shape. */
  lemma PermuteInBounds(idx: seq<int>, shape: seq<nat>, p: seq<int>)
    requires IsPermutation(p) && |shape| == |p|
    requires InBounds(idx, shape)
    ensures InBounds(Permute(idx, p), Permute(shape, p))
  {
  }

  /** Removing the position of the largest value `n - 1` from a permutation of `0 .. n-1` leaves one of `0 .. n-2`. */
  lemma DropLargest(p: seq<int>, j: nat)
    requires IsPermutation(p) && j < |p| && p[j] == |p| - 1
    ensures IsPermutation(Drop(p, j))
  {
    var n := |p|;
    var rest := Drop(p, j);
    forall v | 0 <= v < n - 1
      ensures v in rest
    {
      var k := IndexOf(p, v);
      if k < j { assert rest[k] == v; } else { assert rest[k - 1] == v; }
    }
  }

  /** Splicing one dimension `x` into a shape multiplies its count by `x`. */
  lemma CountSplice(a: seq<nat>, x: nat, b: seq<nat>)
    ensures Count(a + [x] + b) == x * Count(a + b)
  {
    assert Count([x]) == x by {
      assert [x][1..] == [];
    }
    CountAppend(a, [x] + b);
    CountAppend([x], b);
    CountAppend(a, b);
    assert a + [x] + b == a + ([x] + b);
    MulSwap(Count(a), x, Count(b));
  }

  lemma MulSwap(u: nat, x: nat, v: nat)
    ensures u * (x * v) == x * (u * v)
  {
  }

  lemma Splice<T>(whole: seq<T>, part: seq<T>, j: nat, x: T)
    requires j <= |part| && |whole| == |part| + 1 && whole[j] == x
    requires forall i :: 0 <= i < j ==> whole[i] == part[i]
    requires forall i :: j <= i < |part| ==> whole[i + 1] == part[i]
    ensures whole == part[..j] + [x] + part[j..]
  {
  }

  /**
   * Permuting by `p`, where `p[j]` names the last axis, is permuting the
   * other axes by `p` without entry `j`, with the last dimension put back at `j`.
   */
  lemma PermuteSplitsAtLargest(shape: seq<nat>, p: seq<int>, j: nat, m: nat)
    requires IsPermutation(p) && |shape| == |p| == m + 1 && j < |p| && p[j] == m
    ensures IsPermutation(Drop(p, j)) &&
            Permute(shape, p) == Permute(shape[..m], Drop(p, j))[..j] + [shape[m]] + Permute(shape[..m], Drop(p, j))[j..]
  {
    DropLargest(p, j);
    var rest := Drop(p, j);
    var whole := Permute(shape, p);
    var part := Permute(shape[..m], rest);
    forall i | 0 <= i < j
      ensures whole[i] == part[i]
    {
      assert rest[i] == p[i];
    }
    forall i | j <= i < m
      ensures whole[i + 1] == part[i]
    {
      assert rest[i] == p[i + 1];
    }
    Splice(whole, part, j, shape[m]);
  }

  /** Splicing `last` into `part` at `j` multiplies the count by `last`. */
  lemma CountOfSplice(whole: seq<nat>, part: seq<nat>, j: nat, last: nat)
    requires j <= |part| && whole == part[..j] + [last] + part[j..]
    ensures Count(whole) == last * Count(part)
  {
    CountSplice(part[..j], last, part[j..]);
    assert part[..j] + part[j..] == part;
  }

  /** The count of a non-empty shape is its last dimension times the count of the others. */
  lemma CountOfLast(shape: seq<nat>, m: nat)
    requires |shape| == m + 1
    ensures Count(shape) == shape[m] * Count(shape[..m])
  {
    CountSplice(shape[..m], shape[m], []);
    assert shape == shape[..m] + [shape[m]] + [];
    assert shape[..m] + [] == shape[..m];
  }

  /** Reordering the dimensions of a shape leaves its element count unchanged. */
  lemma {:induction false} CountPermute(shape: seq<nat>, p: seq<int>)
    requires IsPermutation(p) && |shape| == |p|
    ensures Count(Permute(shape, p)) == Count(shape)
    decreases |p|
  {
    if |p| > 0 {
      var m: nat := |p| - 1;
      var j := IndexOf(p, m);
      DropLargest(p, j);
      var part := Permute(shape[..m], Drop(p, j));
      CountPermute(shape[..m], Drop(p, j));
      PermuteSplitsAtLargest(shape, p, j, m);
      CountOfSplice(Permute(shape, p), part, j, shape[m]);
      CountOfLast(shape, m);
    }
  }
}
